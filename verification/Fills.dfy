/** What the engine takes off the OUT ring, transfer by transfer, while the plugin writes on. */
module Fills {
  import opened Protocol
  import opened Ledger
  import opened RingModel

  /** Consecutive whole writes of the plugin. */
  type Writes = seq<seq<byte>>

  /** What the plugin writes before each packet read of one transfer. */
  type Gaps = seq<Writes>

  /** The same with the writes of each gap joined. */
  function Joined(gaps: Gaps): (j: seq<seq<byte>>)
    ensures |j| == |gaps|
  {
    if gaps == [] then [] else Joined(gaps[..|gaps| - 1]) + [Concat(gaps[|gaps| - 1])]
  }

  /** Everything the plugin writes during one transfer. */
  function Flat(gaps: Gaps): seq<byte> {
    Concat(Joined(gaps))
  }

  /** Everything it writes during consecutive transfers. */
  function FlatAll(plugin: seq<Gaps>): seq<byte> {
    if plugin == [] then [] else FlatAll(plugin[..|plugin| - 1]) + Flat(plugin[|plugin| - 1])
  }

  lemma FlatAllOneMore(plugin: seq<Gaps>, k: nat)
    requires k < |plugin|
    ensures FlatAll(plugin[..k + 1]) == FlatAll(plugin[..k]) + Flat(plugin[k])
  {
    assert plugin[..k + 1][..k] == plugin[..k];
  }

  predicate GapsFit(wp: nat, gaps: Gaps) {
    gaps == [] ||
    (GapsFit(wp, gaps[..|gaps| - 1]) && WritesFit(wp + |Flat(gaps[..|gaps| - 1])|, gaps[|gaps| - 1]))
  }

  predicate PlanFits(wp: nat, plugin: seq<Gaps>) {
    plugin == [] ||
    (&& PlanFits(wp, plugin[..|plugin| - 1])
     && |plugin[|plugin| - 1]| == PACKETS_PER_XFER
     && GapsFit(wp + |FlatAll(plugin[..|plugin| - 1])|, plugin[|plugin| - 1]))
  }

  /**
   One filling of OUT transfer i: the read positions before each packet and after the last, the packets,
   and whether libusb accepted the buffer they make.
   */
  datatype Fill = Fill(i: nat, accepted: bool, marks: seq<nat>, packets: seq<seq<byte>>)
  {
    function Buffer(): seq<byte> {
      Concat(packets)
    }
  }

  function FillFrom(s: Stream, i: nat, gaps: Gaps, accepted: bool): Fill
    requires s.Ok()
  {
    Fill(i, accepted, Marks(s, Joined(gaps)), Packets(s, Joined(gaps)))
  }

  function AfterFill(s: Stream, gaps: Gaps): (t: Stream)
    requires s.Ok()
    ensures t.Ok()
  {
    AfterPackets(s, Joined(gaps))
  }

  /** The bytes libusb was last given for transfer i. */
  function InHand(fills: seq<Fill>, i: nat): seq<byte> {
    if fills == [] then []
    else
      var f := fills[|fills| - 1];
      if f.i == i && f.accepted then f.Buffer() else InHand(fills[..|fills| - 1], i)
  }

  function Accepted(fills: seq<Fill>): seq<Fill> {
    if fills == [] then []
    else Accepted(fills[..|fills| - 1]) + if fills[|fills| - 1].accepted then [fills[|fills| - 1]] else []
  }

  function Refused(fills: seq<Fill>): seq<Fill> {
    if fills == [] then []
    else Refused(fills[..|fills| - 1]) + if fills[|fills| - 1].accepted then [] else [fills[|fills| - 1]]
  }

  /** The stream bytes in a sequence of fillings, without the padding. */
  function Content(bytes: seq<byte>, fills: seq<Fill>): seq<byte> {
    if fills == [] then [] else Content(bytes, fills[..|fills| - 1]) + Pieces(bytes, fills[|fills| - 1].marks)
  }

  /** Every packet is the segment between its marks followed by silence, or all silence after a lap skip. */
  predicate Segments(bytes: seq<byte>, marks: seq<nat>, packets: seq<seq<byte>>) {
    && |marks| == |packets| + 1
    && forall p :: 0 <= p < |packets| ==> PacketIsSegment(bytes, marks[p], marks[p + 1], packets[p])
  }

  /** The fillings go through the stream in order, each starting where the one before it stopped. */
  predicate Chained(bytes: seq<byte>, fills: seq<Fill>, end: nat) {
    if fills == [] then end == 0
    else
      var f := fills[|fills| - 1];
      && |f.packets| == PACKETS_PER_XFER
      && Segments(bytes, f.marks, f.packets) && MarksWithin(f.marks, |bytes|)
      && f.marks[PACKETS_PER_XFER] == end
      && Chained(bytes, fills[..|fills| - 1], f.marks[0])
  }

  /** The ring was read by these fillings and nothing else. */
  predicate ReadBy(s: Stream, fills: seq<Fill>) {
    Chained(s.bytes, fills, s.rp) && Delivered(s.log) == Content(s.bytes, fills)
  }

  lemma OneMore(fills: seq<Fill>, f: Fill)
    ensures (fills + [f])[..|fills + [f]| - 1] == fills
    ensures |Refused(fills + [f])| == |Refused(fills)| + if f.accepted then 0 else 1
    ensures |Accepted(fills + [f])| == |Accepted(fills)| + if f.accepted then 1 else 0
    ensures forall i :: InHand(fills + [f], i) == if f.i == i && f.accepted then f.Buffer() else InHand(fills, i)
  {
    assert (fills + [f])[..|fills + [f]| - 1] == fills;
  }

  lemma SegmentsGrow(bytes: seq<byte>, more: seq<byte>, marks: seq<nat>, packets: seq<seq<byte>>)
    requires Segments(bytes, marks, packets)
    ensures Segments(bytes + more, marks, packets)
  {
    forall p | 0 <= p < |packets|
      ensures PacketIsSegment(bytes + more, marks[p], marks[p + 1], packets[p])
    {
      SegmentSurvives(bytes, more, marks[p], marks[p + 1], packets[p]);
    }
  }

  lemma {:induction false} ChainGrows(bytes: seq<byte>, more: seq<byte>, fills: seq<Fill>, end: nat)
    requires Chained(bytes, fills, end)
    ensures Chained(bytes + more, fills, end)
    ensures Content(bytes + more, fills) == Content(bytes, fills)
  {
    if fills != [] {
      var f := fills[|fills| - 1];
      ChainGrows(bytes, more, fills[..|fills| - 1], f.marks[0]);
      SegmentsGrow(bytes, more, f.marks, f.packets);
      PiecesGrow(bytes, more, f.marks);
    }
  }

  lemma PublishKeepsReadBy(s: Stream, data: seq<byte>, fills: seq<Fill>)
    requires s.Ok() && ReadBy(s, fills)
    ensures ReadBy(s.Publish(data), fills)
  {
    ChainGrows(s.bytes, data, fills, s.rp);
  }

  lemma ContentOneMore(bytes: seq<byte>, fills: seq<Fill>, f: Fill)
    ensures Content(bytes, fills + [f]) == Content(bytes, fills) + Pieces(bytes, f.marks)
  {
    assert (fills + [f])[..|fills + [f]| - 1] == fills;
  }

  lemma ChainOneMore(bytes: seq<byte>, fills: seq<Fill>, f: Fill)
    requires |f.packets| == PACKETS_PER_XFER
    requires Segments(bytes, f.marks, f.packets) && MarksWithin(f.marks, |bytes|)
    requires Chained(bytes, fills, f.marks[0])
    ensures Chained(bytes, fills + [f], f.marks[PACKETS_PER_XFER])
  {
    assert (fills + [f])[..|fills + [f]| - 1] == fills;
  }

  lemma FillBytes(s: Stream, gaps: Gaps)
    requires s.Ok()
    ensures AfterFill(s, gaps).bytes == s.bytes + Flat(gaps)
  {
    InterleavedPackets(s, Joined(gaps));
  }

  lemma FillSegments(s: Stream, gaps: Gaps)
    requires s.Ok()
    ensures var t, marks := AfterFill(s, gaps), Marks(s, Joined(gaps));
            && t.bytes == s.bytes + Flat(gaps) && marks[0] == s.rp
            && Segments(t.bytes, marks, Packets(s, Joined(gaps))) && MarksWithin(marks, |t.bytes|)
  {
    InterleavedPackets(s, Joined(gaps));
    MarksInside(s, Joined(gaps));
  }

  lemma FillDelivers(s: Stream, gaps: Gaps)
    requires s.Sound(0)
    ensures var t := AfterFill(s, gaps);
            t.Sound(0) && Delivered(t.log) == Delivered(s.log) + Pieces(t.bytes, Marks(s, Joined(gaps)))
  {
    PacketsDeliver(s, Joined(gaps), 0);
    TakenIsPieces(s, Joined(gaps));
  }

  /** A transfer filled while the plugin writes extends the chain and takes exactly what the ring delivers. */
  lemma FillKeepsReadBy(s: Stream, fills: seq<Fill>, i: nat, gaps: Gaps, accepted: bool)
    requires s.Sound(0) && ReadBy(s, fills) && |gaps| == PACKETS_PER_XFER
    ensures var t := AfterFill(s, gaps);
            && t.Sound(0) && t.bytes == s.bytes + Flat(gaps)
            && ReadBy(t, fills + [FillFrom(s, i, gaps, accepted)])
  {
    var f, t := FillFrom(s, i, gaps, accepted), AfterFill(s, gaps);
    FillSegments(s, gaps);
    FillDelivers(s, gaps);
    ChainGrows(s.bytes, Flat(gaps), fills, s.rp);
    ChainOneMore(t.bytes, fills, f);
    ContentOneMore(t.bytes, fills, f);
  }

  /** The fillings hold at most a transfer's bytes each. */
  lemma {:induction false} ContentBound(bytes: seq<byte>, fills: seq<Fill>)
    requires forall f <- fills :: |f.marks| == PACKETS_PER_XFER + 1
    ensures |Content(bytes, fills)| <= XFER_SIZE * |fills|
  {
    if fills != [] {
      ContentBound(bytes, fills[..|fills| - 1]);
      PiecesBound(bytes, fills[|fills| - 1].marks, XFER_SIZE);
    }
  }

  lemma {:induction false} ChainedMarks(bytes: seq<byte>, fills: seq<Fill>, end: nat)
    requires Chained(bytes, fills, end)
    ensures forall f <- fills :: |f.marks| == PACKETS_PER_XFER + 1
  {
    if fills != [] {
      ChainedMarks(bytes, fills[..|fills| - 1], fills[|fills| - 1].marks[0]);
    }
  }

  lemma {:induction false} RefusedAreFills(fills: seq<Fill>)
    ensures forall f <- Refused(fills) :: f in fills && !f.accepted
    ensures forall f <- Accepted(fills) :: f in fills && f.accepted
    ensures |Accepted(fills)| + |Refused(fills)| == |fills|
  {
    if fills != [] {
      RefusedAreFills(fills[..|fills| - 1]);
    }
  }

  lemma {:induction false} AcceptedIsAll(fills: seq<Fill>)
    ensures Refused(fills) == [] ==> Accepted(fills) == fills
  {
    if fills != [] {
      AcceptedIsAll(fills[..|fills| - 1]);
    }
  }

  /** Accepted and refused fillings share out what was read. */
  lemma {:induction false} ContentSplits(bytes: seq<byte>, fills: seq<Fill>)
    ensures |Content(bytes, fills)| == |Content(bytes, Accepted(fills))| + |Content(bytes, Refused(fills))|
  {
    if fills != [] {
      var front, f := fills[..|fills| - 1], fills[|fills| - 1];
      ContentSplits(bytes, front);
      if f.accepted {
        ContentOneMore(bytes, Accepted(front), f);
        assert Refused(fills) == Refused(front);
      } else {
        ContentOneMore(bytes, Refused(front), f);
        assert Accepted(fills) == Accepted(front);
      }
    }
  }
}
