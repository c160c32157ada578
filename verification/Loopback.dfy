/**
 The loopback test of the latency tool: drain the IN ring, send an impulse down the OUT ring, then poll
 the IN ring in whole frames until some sample is loud.
 */
module Loopback {
  import opened Protocol
  import opened Ledger
  import opened Codec
  import opened RingModel
  import Ring

  const THRESHOLD: int := 0x01_0000
  const TIMEOUT_US: nat := 3_000_000
  const POLL_US: nat := 100
  const BUF_BYTES: nat := 864            // FRAME_SIZE * 48
  const IMPULSE: int := 0x7F_FFFF
  const IMPULSE_FRAMES: nat := 4

  function Abs(v: int): nat {
    if v < 0 then -v else v
  }

  function Max(a: nat, b: nat): nat {
    if a < b then b else a
  }

  predicate LoudSample(bytes: seq<byte>, i: nat)
    requires 3 * (i + 1) <= |bytes|
  {
    Abs(SampleAt(bytes, i)) > THRESHOLD
  }

  /** Frame f has a sample above the threshold. */
  predicate Loud(bytes: seq<byte>, f: nat)
    requires FRAME_SIZE * (f + 1) <= |bytes|
  {
    exists i :: CHANNELS * f <= i < CHANNELS * (f + 1) && LoudSample(bytes, i)
  }

  /** No frame below n is loud. */
  predicate Silent(bytes: seq<byte>, n: nat)
    requires FRAME_SIZE * n <= |bytes|
  {
    forall f :: 0 <= f < n ==> !Loud(bytes, f)
  }

  /** The largest magnitude among the first n samples. */
  function Peak(bytes: seq<byte>, n: nat): nat
    requires 3 * n <= |bytes|
  {
    if n == 0 then 0 else Max(Peak(bytes, n - 1), Abs(SampleAt(bytes, n - 1)))
  }

  // ---- Loudness and peak on the samples ----

  lemma LoudMeans(bytes: seq<byte>, i: nat)
    requires 3 * (i + 1) <= |bytes|
    ensures LoudSample(bytes, i) <==> SampleAt(bytes, i) > 0x1_0000 || SampleAt(bytes, i) < -0x1_0000
  {
  }

  /** No sample is further from zero than the peak ... */
  lemma {:induction false} PeakBounds(bytes: seq<byte>, n: nat, i: nat)
    requires 3 * n <= |bytes| && i < n
    ensures -(Peak(bytes, n) as int) <= SampleAt(bytes, i) <= Peak(bytes, n)
  {
    if i < n - 1 {
      PeakBounds(bytes, n - 1, i);
    }
  }

  /** ... and some sample is as far. */
  lemma {:induction false} PeakAttained(bytes: seq<byte>, n: nat) returns (i: nat)
    requires 3 * n <= |bytes| && n > 0
    ensures i < n && (SampleAt(bytes, i) == Peak(bytes, n) || SampleAt(bytes, i) == -(Peak(bytes, n) as int))
  {
    i := n - 1;
    if n > 1 && Peak(bytes, n) == Peak(bytes, n - 1) {
      i := PeakAttained(bytes, n - 1);
    }
  }

  // ---- Frames of a concatenation ----

  lemma SampleOfPrefix(a: seq<byte>, b: seq<byte>, i: nat)
    requires 3 * (i + 1) <= |a|
    ensures SampleAt(a + b, i) == SampleAt(a, i)
  {
  }

  lemma SampleOfSuffix(a: seq<byte>, b: seq<byte>, n: nat, i: nat)
    requires |a| == 3 * n && 3 * (i + 1) <= |b|
    ensures SampleAt(a + b, n + i) == SampleAt(b, i)
  {
  }

  lemma LoudOfPrefix(a: seq<byte>, b: seq<byte>, f: nat)
    requires FRAME_SIZE * (f + 1) <= |a|
    ensures Loud(a + b, f) == Loud(a, f)
  {
    forall i | CHANNELS * f <= i < CHANNELS * (f + 1)
      ensures LoudSample(a + b, i) == LoudSample(a, i)
    {
      SampleOfPrefix(a, b, i);
    }
  }

  lemma LoudOfSuffix(a: seq<byte>, b: seq<byte>, n: nat, f: nat)
    requires |a| == FRAME_SIZE * n && FRAME_SIZE * (f + 1) <= |b|
    ensures Loud(a + b, n + f) == Loud(b, f)
  {
    var shift := CHANNELS * n;
    forall i | CHANNELS * f <= i < CHANNELS * (f + 1)
      ensures LoudSample(a + b, shift + i) == LoudSample(b, i)
    {
      SampleOfSuffix(a, b, shift, i);
    }
    assert CHANNELS * (n + f) == shift + CHANNELS * f;
    assert CHANNELS * (n + f + 1) == shift + CHANNELS * (f + 1);
    if Loud(a + b, n + f) {
      var k :| CHANNELS * (n + f) <= k < CHANNELS * (n + f + 1) && LoudSample(a + b, k);
      assert k == shift + (k - shift);
      assert LoudSample(b, k - shift);
    }
    if Loud(b, f) {
      var k :| CHANNELS * f <= k < CHANNELS * (f + 1) && LoudSample(b, k);
      assert LoudSample(a + b, shift + k);
    }
  }

  lemma SilentJoin(a: seq<byte>, b: seq<byte>, n: nat, f: nat)
    requires |a| == FRAME_SIZE * n && FRAME_SIZE * f <= |b|
    requires Silent(a, n) && Silent(b, f)
    ensures Silent(a + b, n + f)
  {
    forall k | 0 <= k < n + f
      ensures !Loud(a + b, k)
    {
      if k < n {
        LoudOfPrefix(a, b, k);
      } else {
        LoudOfSuffix(a, b, n, k - n);
      }
    }
  }

  lemma {:induction false} PeakJoin(a: seq<byte>, b: seq<byte>, n: nat, k: nat)
    requires |a| == 3 * n && 3 * k <= |b|
    ensures Peak(a + b, n + k) == Max(Peak(a, n), Peak(b, k))
  {
    if k > 0 {
      PeakJoin(a, b, n, k - 1);
      SampleOfSuffix(a, b, n, k - 1);
    } else if n > 0 {
      PeakOfPrefix(a, b, n);
    }
  }

  lemma {:induction false} PeakOfPrefix(a: seq<byte>, b: seq<byte>, n: nat)
    requires 3 * n <= |a|
    ensures Peak(a + b, n) == Peak(a, n)
  {
    if n > 0 {
      PeakOfPrefix(a, b, n - 1);
      SampleOfPrefix(a, b, n - 1);
    }
  }

  // ---- The read limit the scanner computes ----

  function FrameAligned(avail: nat): nat {
    Min(avail, BUF_BYTES) / FRAME_SIZE * FRAME_SIZE
  }

  /** The largest whole number of frames that is there and fits the buffer of 48 frames. */
  lemma RequestIsLargest(avail: nat)
    ensures var r := FrameAligned(avail);
            r % 18 == 0 && r <= avail && r <= 864 && (r + 18 > avail || r + 18 > 864)
  {
  }

  /**
   The scanner is the only consumer, so what was available stays available: whatever the bridge publishes
   between the query and the read, the read returns all it was asked for, or nothing because it was lapped.
   */
  lemma AllOrNothing(s: Stream, published: seq<byte>)
    requires s.Ok()
    ensures var max := FrameAligned(s.Unread());
            var t := s.Publish(published);
            && max % FRAME_SIZE == 0
            && t.Count(max) == if t.Lapped() then 0 else max
  {
  }

  // ---- The tool ----

  /** Every channel of four frames at positive full scale. */
  function ImpulseSamples(n: nat): (samples: seq<int>)
    ensures |samples| == n
  {
    seq(n, _ => IMPULSE)
  }

  /** Where channel ch of frame f lies in a buffer. */
  method SampleOffset(f: nat, ch: nat) returns (at: nat)
    ensures at == 3 * (CHANNELS * f + ch)
  {
    at := f * FRAME_SIZE + ch * BYTES_PER_SAMPLE;
  }

  /** The first k samples of the buffer are the impulse. */
  predicate Impulse(bytes: seq<byte>, k: nat)
    requires 3 * k <= |bytes|
  {
    forall i :: 0 <= i < k ==> SampleAt(bytes, i) == IMPULSE
  }

  lemma ImpulseSampleBytes()
    ensures Int24Bytes(IMPULSE) == [0xFF, 0xFF, 0x7F] && ReadInt24(0xFF, 0xFF, 0x7F) == IMPULSE
  {
  }

  lemma ImpulseOneMore(before: seq<byte>, after: seq<byte>, k: nat, three: seq<byte>)
    requires 3 * (k + 1) <= |before| && Impulse(before, k) && three == [0xFF, 0xFF, 0x7F]
    requires after == before[..3 * k] + three + before[3 * k + 3..]
    ensures Impulse(after, k + 1)
  {
    ImpulseSampleBytes();
    assert SampleAt(after, k) == IMPULSE;
    forall i | 0 <= i < k
      ensures SampleAt(after, i) == SampleAt(before, i)
    {
    }
  }

  lemma ImpulseBytes(bytes: seq<byte>, k: nat)
    requires |bytes| == 3 * k && Impulse(bytes, k)
    ensures bytes == Encode(ImpulseSamples(k))
  {
    forall i | 0 <= i < k
      ensures Decode(bytes)[i] == IMPULSE
    {
      DecodeAt(bytes, i);
    }
    assert Decode(bytes) == ImpulseSamples(k);
    EncodeDecode(bytes);
  }

  /** The impulse is 72 bytes, 24 times FF FF 7F. */
  lemma ImpulseIs(i: nat)
    requires i < 24
    ensures var b := Encode(ImpulseSamples(CHANNELS * IMPULSE_FRAMES));
            |b| == 72 && b[3 * i] == 0xFF && b[3 * i + 1] == 0xFF && b[3 * i + 2] == 0x7F
  {
    var b := Encode(ImpulseSamples(CHANNELS * IMPULSE_FRAMES));
    EncodedAt(ImpulseSamples(CHANNELS * IMPULSE_FRAMES), i);
    ImpulseSampleBytes();
    ThreeBytes(b, 3 * i, Int24Bytes(IMPULSE));
  }

  /** Writes one frame of the impulse behind the n samples of the frames before it. */
  method WriteImpulseFrame(impulse: array<byte>, f: nat, ghost n: nat)
    requires n == CHANNELS * f && 3 * (n + CHANNELS) <= impulse.Length && Impulse(impulse[..], n)
    modifies impulse
    ensures Impulse(impulse[..], n + CHANNELS)
  {
    var ch := 0;
    while ch < CHANNELS
      invariant ch <= CHANNELS && Impulse(impulse[..], n + ch)
    {
      var at := SampleOffset(f, ch);
      ghost var before := impulse[..];
      WriteInt24(impulse, at, IMPULSE);
      ImpulseSampleBytes();
      ImpulseOneMore(before, impulse[..], n + ch, Int24Bytes(IMPULSE));
      ch := ch + 1;
    }
  }

  method BuildImpulse() returns (impulse: array<byte>)
    ensures fresh(impulse) && impulse.Length == FRAME_SIZE * IMPULSE_FRAMES
    ensures impulse[..] == Encode(ImpulseSamples(CHANNELS * IMPULSE_FRAMES))
  {
    impulse := new byte[FRAME_SIZE * IMPULSE_FRAMES](_ => 0);
    var f := 0;
    while f < IMPULSE_FRAMES
      invariant f <= IMPULSE_FRAMES && Impulse(impulse[..], CHANNELS * f)
    {
      WriteImpulseFrame(impulse, f, CHANNELS * f);
      f := f + 1;
    }
    ImpulseBytes(impulse[..], CHANNELS * IMPULSE_FRAMES);
  }

  /** None of the k samples from n on is loud. */
  predicate NoneLoud(bytes: seq<byte>, n: nat, k: nat)
    requires 3 * (n + k) <= |bytes|
  {
    forall i :: n <= i < n + k ==> !LoudSample(bytes, i)
  }

  lemma NoneLoudNext(bytes: seq<byte>, n: nat, k: nat, next: nat)
    requires next == k + 1 && 3 * (n + next) <= |bytes|
    requires NoneLoud(bytes, n, k) && !LoudSample(bytes, n + k)
    ensures NoneLoud(bytes, n, next)
  {
  }

  /** Frame f is loud, and the last of the first `looked` samples is its first loud one. */
  predicate StopsAt(bytes: seq<byte>, f: nat, looked: nat)
    requires FRAME_SIZE * (f + 1) <= |bytes|
  {
    && CHANNELS * f < looked <= CHANNELS * (f + 1)
    && LoudSample(bytes, looked - 1) && NoneLoud(bytes, CHANNELS * f, looked - 1 - CHANNELS * f)
  }

  lemma StopIsLoud(bytes: seq<byte>, f: nat, looked: nat)
    requires FRAME_SIZE * (f + 1) <= |bytes| && StopsAt(bytes, f, looked)
    ensures Loud(bytes, f)
  {
  }

  /** The peak before this buffer, raised by its first k samples. */
  predicate Raised(earlier: nat, bytes: seq<byte>, k: nat, peak: nat)
    requires 3 * k <= |bytes|
  {
    peak == Max(earlier, Peak(bytes, k))
  }

  lemma SampleInBuffer(bytes: seq<byte>, at: nat, i: nat)
    requires at == 3 * i && at + 3 <= |bytes|
    ensures SampleAt(bytes, i) == ReadInt24(bytes[at], bytes[at + 1], bytes[at + 2])
    ensures LoudSample(bytes, i) == (Abs(SampleAt(bytes, i)) > THRESHOLD)
    ensures Peak(bytes, i + 1) == Max(Peak(bytes, i), Abs(SampleAt(bytes, i)))
  {
  }

  /** What the scan of one frame knows after the first k of its samples, none of them loud. */
  predicate Scanned(bytes: seq<byte>, n: nat, k: nat, earlier: nat, peak: nat)
    requires 3 * (n + k) <= |bytes|
  {
    NoneLoud(bytes, n, k) && Raised(earlier, bytes, n + k, peak)
  }

  /** Looks at sample ch of the frame. */
  method ScanSample(buf: array<byte>, at: nat, maxSample: nat,
                    ghost n: nat, ghost ch: nat, ghost looked: nat, ghost earlier: nat)
    returns (loud: bool, peak: nat)
    requires at == 3 * (n + ch) && at + 3 <= buf.Length && looked == n + ch + 1
    requires Scanned(buf[..], n, ch, earlier, maxSample)
    ensures loud ==> LoudSample(buf[..], n + ch) && peak > THRESHOLD && Raised(earlier, buf[..], looked, peak)
    ensures !loud ==> Scanned(buf[..], n, ch + 1, earlier, peak)
  {
    SampleInBuffer(buf[..], at, n + ch);
    var sample := ReadInt24(buf[at], buf[at + 1], buf[at + 2]);
    var mag := Abs(sample);
    peak := if mag > maxSample then mag else maxSample;
    loud := mag > THRESHOLD;
    if !loud {
      NoneLoudNext(buf[..], n, ch, ch + 1);
    }
  }

  /** What the scan of one frame reports: the peak of all samples looked at, up to the first loud one. */
  predicate FrameReport(bytes: seq<byte>, f: nat, loud: bool, looked: nat, earlier: nat, peak: nat)
    requires FRAME_SIZE * (f + 1) <= |bytes|
  {
    if loud then StopsAt(bytes, f, looked) && peak > THRESHOLD && Raised(earlier, bytes, looked, peak)
    else !Loud(bytes, f) && looked == CHANNELS * (f + 1) && Raised(earlier, bytes, looked, peak)
  }

  lemma ReportQuiet(bytes: seq<byte>, f: nat, n: nat, looked: nat, earlier: nat, peak: nat)
    requires n == CHANNELS * f && looked == n + CHANNELS && FRAME_SIZE * (f + 1) <= |bytes|
    requires Scanned(bytes, n, CHANNELS, earlier, peak)
    ensures FrameReport(bytes, f, false, looked, earlier, peak)
  {
  }

  lemma ReportLoud(bytes: seq<byte>, f: nat, n: nat, ch: nat, looked: nat, earlier: nat, peak: nat)
    requires n == CHANNELS * f && ch < CHANNELS && looked == n + ch + 1 && FRAME_SIZE * (f + 1) <= |bytes|
    requires NoneLoud(bytes, n, ch) && LoudSample(bytes, n + ch)
    requires peak > THRESHOLD && Raised(earlier, bytes, looked, peak)
    ensures FrameReport(bytes, f, true, looked, earlier, peak)
  {
  }

  /** Looks at the channels of one frame until one is loud; earlier is the peak before this buffer. */
  method ScanFrame(buf: array<byte>, f: nat, maxSample: nat, ghost n: nat, ghost earlier: nat)
    returns (loud: bool, peak: nat, ghost looked: nat)
    requires n == CHANNELS * f && FRAME_SIZE * (f + 1) <= buf.Length
    requires Raised(earlier, buf[..], n, maxSample)
    ensures FrameReport(buf[..], f, loud, looked, earlier, peak)
  {
    loud, peak, looked := false, maxSample, n;
    var ch := 0;
    while ch < CHANNELS
      invariant ch <= CHANNELS && !loud && looked == n + ch
      invariant Scanned(buf[..], n, ch, earlier, peak)
    {
      var at := SampleOffset(f, ch);
      looked := looked + 1;
      loud, peak := ScanSample(buf, at, peak, n, ch, looked, earlier);
      if loud {
        ReportLoud(buf[..], f, n, ch, looked, earlier, peak);
        return;
      }
      ch := ch + 1;
    }
    ReportQuiet(buf[..], f, n, looked, earlier, peak);
  }

  /** What the scan of a buffer of frames reports, which stops at the first loud frame, having counted it. */
  predicate Report(bytes: seq<byte>, frames: nat, detected: bool, scanned: nat, looked: nat, earlier: nat, peak: nat)
    requires FRAME_SIZE * frames <= |bytes|
  {
    if detected then
      && 0 < scanned <= frames && Silent(bytes, scanned - 1) && StopsAt(bytes, scanned - 1, looked)
      && peak > THRESHOLD && Raised(earlier, bytes, looked, peak)
    else
      && scanned == frames && Silent(bytes, frames) && looked == CHANNELS * frames
      && Raised(earlier, bytes, looked, peak)
  }

  /** Looks at frames until one is loud. */
  method ScanFrames(buf: array<byte>, frames: nat, maxSample: nat)
    returns (detected: bool, scanned: nat, peak: nat, ghost looked: nat)
    requires FRAME_SIZE * frames <= buf.Length
    ensures Report(buf[..], frames, detected, scanned, looked, maxSample, peak)
  {
    detected, scanned, peak, looked := false, 0, maxSample, 0;
    while scanned < frames
      invariant scanned <= frames && Silent(buf[..], scanned) && !detected && looked == CHANNELS * scanned
      invariant Raised(maxSample, buf[..], looked, peak)
    {
      detected, peak, looked := ScanFrame(buf, scanned, peak, CHANNELS * scanned, maxSample);
      scanned := scanned + 1;
      if detected {
        return;
      }
    }
  }

  // ---- The ring while the tool polls it ----

  /** What the bridge publishes before the scanner's query, and from there to its read or the end of its sleep. */
  datatype Poll = Poll(before: seq<seq<byte>>, between: seq<seq<byte>>)

  predicate UsbPackets(packets: seq<seq<byte>>) {
    forall p <- packets :: |p| <= MAX_PACKET
  }

  predicate UsbPolls(polls: seq<Poll>) {
    forall p <- polls :: UsbPackets(p.before) && UsbPackets(p.between)
  }

  /** The ring at the query, and when everything of this turn is published. */
  function Queried(s: Stream, poll: Poll): (q: Stream)
    requires s.Ok()
    ensures q.Ok()
  {
    s.Publish(Concat(poll.before))
  }

  function Ready(s: Stream, poll: Poll): (q: Stream)
    requires s.Ok()
    ensures q.Ok()
  {
    Queried(s, poll).Publish(Concat(poll.between))
  }

  /** The query finds less than a frame, and the scanner sleeps. */
  predicate Idle(s: Stream, poll: Poll)
    requires s.Ok()
  {
    Queried(s, poll).Unread() < FRAME_SIZE
  }

  /** How much the scanner asks for. */
  function Request(s: Stream, poll: Poll): nat
    requires s.Ok()
  {
    FrameAligned(Queried(s, poll).Unread())
  }

  function AfterTurn(s: Stream, poll: Poll): (t: Stream)
    requires s.Ok()
    ensures t.Ok()
  {
    if Idle(s, poll) then Ready(s, poll) else Ready(s, poll).Consume(Request(s, poll))
  }

  /** What the turn delivers: all it asks for, or nothing because the ring was lapped meanwhile. */
  function Chunk(s: Stream, poll: Poll): seq<byte>
    requires s.Ok()
  {
    if Idle(s, poll) then [] else Ready(s, poll).Received(Request(s, poll))
  }

  function AfterTurns(s: Stream, polls: seq<Poll>): (t: Stream)
    requires s.Ok()
    ensures t.Ok()
  {
    if polls == [] then s else AfterTurn(AfterTurns(s, polls[..|polls| - 1]), polls[|polls| - 1])
  }

  /** Everything delivered over these turns. */
  function HeardOver(s: Stream, polls: seq<Poll>): seq<byte>
    requires s.Ok()
  {
    if polls == [] then []
    else
      var front := polls[..|polls| - 1];
      HeardOver(s, front) + Chunk(AfterTurns(s, front), polls[|polls| - 1])
  }

  function IdleTurns(s: Stream, polls: seq<Poll>): nat
    requires s.Ok()
  {
    if polls == [] then 0
    else
      var front := polls[..|polls| - 1];
      IdleTurns(s, front) + if Idle(AfterTurns(s, front), polls[|polls| - 1]) then 1 else 0
  }

  /** All frames of these bytes are silent. */
  predicate AllSilent(bytes: seq<byte>) {
    Silent(bytes, |bytes| / FRAME_SIZE)
  }

  /** The loop goes on after these turns: time is left and nothing was loud. */
  predicate GoesOn(s: Stream, polls: seq<Poll>)
    requires s.Ok()
  {
    POLL_US * IdleTurns(s, polls) < TIMEOUT_US && AllSilent(HeardOver(s, polls))
  }

  /** What is published over these turns. */
  function PublishedOver(polls: seq<Poll>): seq<byte> {
    if polls == [] then []
    else
      var poll := polls[|polls| - 1];
      PublishedOver(polls[..|polls| - 1]) + (Concat(poll.before) + Concat(poll.between))
  }

  lemma TakeNext(polls: seq<Poll>, n: nat, next: nat)
    requires n < next == n + 1 <= |polls|
    ensures polls[..next] != [] && polls[..next][..|polls[..next]| - 1] == polls[..n]
    ensures polls[..next][|polls[..next]| - 1] == polls[n]
  {
  }

  lemma TurnsOneMore(s: Stream, taken: seq<Poll>, front: seq<Poll>, poll: Poll)
    requires s.Ok() && taken != [] && front == taken[..|taken| - 1] && poll == taken[|taken| - 1]
    ensures AfterTurns(s, taken) == AfterTurn(AfterTurns(s, front), poll)
    ensures HeardOver(s, taken) == HeardOver(s, front) + Chunk(AfterTurns(s, front), poll)
    ensures IdleTurns(s, taken) == IdleTurns(s, front) + if Idle(AfterTurns(s, front), poll) then 1 else 0
  {
  }

  // ---- What the polling hears ----

  lemma ReadyDelivers(s: Stream, poll: Poll, start: nat)
    requires s.Sound(start)
    ensures var ready := Ready(s, poll);
            && ready.Sound(start) && ready.rp == s.rp && ready.log == s.log
            && ready.bytes == s.bytes + (Concat(poll.before) + Concat(poll.between))
  {
    WriteEffect(s, Concat(poll.before), start);
    WriteEffect(Queried(s, poll), Concat(poll.between), start);
    Associative(s.bytes, Concat(poll.before), Concat(poll.between));
  }

  lemma TurnDelivers(s: Stream, poll: Poll, start: nat)
    requires s.Sound(start)
    ensures var t := AfterTurn(s, poll);
            && t.Sound(start) && s.rp <= t.rp
            && t.bytes == s.bytes + (Concat(poll.before) + Concat(poll.between))
            && Delivered(t.log) == Delivered(s.log) + Chunk(s, poll)
            && Laps(t.log) == Laps(s.log) + if !Idle(s, poll) && Ready(s, poll).Lapped() then 1 else 0
  {
    ReadyDelivers(s, poll, start);
    if Idle(s, poll) {
      assert Delivered(s.log) + [] == Delivered(s.log);
    } else {
      ReadEffect(Ready(s, poll), Request(s, poll), start);
    }
  }

  lemma TurnUnfolds(s: Stream, poll: Poll, q: Stream, avail: nat)
    requires s.Ok() && !Idle(s, poll) && q == Queried(s, poll) && avail == q.Unread()
    ensures AfterTurn(s, poll) == q.Publish(Concat(poll.between)).Consume(FrameAligned(avail))
    ensures Chunk(s, poll) == q.Publish(Concat(poll.between)).Received(FrameAligned(avail))
  {
  }

  /** Turns in which the scanner was lapped between its query and its read. */
  function LappedTurns(s: Stream, polls: seq<Poll>): nat
    requires s.Ok()
  {
    if polls == [] then 0
    else
      var m, poll := AfterTurns(s, polls[..|polls| - 1]), polls[|polls| - 1];
      LappedTurns(s, polls[..|polls| - 1]) + if !Idle(m, poll) && Ready(m, poll).Lapped() then 1 else 0
  }

  /** The ring grows by what the bridge publishes, and what is heard is what the ledger says was delivered. */
  lemma {:induction false} TurnsDeliver(s: Stream, polls: seq<Poll>, start: nat)
    requires s.Sound(start)
    ensures var t := AfterTurns(s, polls);
            && t.Sound(start) && s.rp <= t.rp
            && t.bytes == s.bytes + PublishedOver(polls)
            && Delivered(t.log) == Delivered(s.log) + HeardOver(s, polls)
            && Laps(t.log) == Laps(s.log) + LappedTurns(s, polls)
  {
    if polls == [] {
      assert s.bytes + [] == s.bytes && Delivered(s.log) + [] == Delivered(s.log);
    } else {
      var front, poll := polls[..|polls| - 1], polls[|polls| - 1];
      var m := AfterTurns(s, front);
      TurnsDeliver(s, front, start);
      TurnDelivers(m, poll, start);
      Associative(s.bytes, PublishedOver(front), Concat(poll.before) + Concat(poll.between));
      Associative(Delivered(s.log), HeardOver(s, front), Chunk(m, poll));
    }
  }

  /** One turn without a lap takes the next bytes of the stream. */
  lemma TurnIsExact(s: Stream, poll: Poll, from: nat, heard: seq<byte>)
    requires s.Ok() && from <= s.rp && heard == s.bytes[from..s.rp]
    requires Idle(s, poll) || !Ready(s, poll).Lapped()
    ensures var t := AfterTurn(s, poll);
            s.rp <= t.rp && heard + Chunk(s, poll) == t.bytes[from..t.rp]
  {
    var ready, t := Ready(s, poll), AfterTurn(s, poll);
    SliceOfPrefix(s.bytes, Concat(poll.before), from, s.rp);
    SliceOfPrefix(Queried(s, poll).bytes, Concat(poll.between), from, s.rp);
    assert ready.bytes[from..s.rp] == heard;
    SliceJoin(ready.bytes, from, s.rp, t.rp);
    assert ready.bytes[s.rp..t.rp] == Chunk(s, poll);
  }

  /** While the scanner is not lapped, it hears every byte from where it started to where it stands. */
  lemma {:induction false} NothingMissed(s: Stream, polls: seq<Poll>)
    requires s.Ok() && LappedTurns(s, polls) == 0
    ensures var t := AfterTurns(s, polls);
            s.rp <= t.rp && HeardOver(s, polls) == t.bytes[s.rp..t.rp]
  {
    if polls != [] {
      var front := polls[..|polls| - 1];
      NothingMissed(s, front);
      TurnIsExact(AfterTurns(s, front), polls[|polls| - 1], s.rp, HeardOver(s, front));
    }
  }

  // ---- The same, counted in bytes ----

  /** What a turn takes that found u bytes, b more arriving before the read. */
  predicate Takes(u: nat, b: nat, taken: nat) {
    if u < 18 || u + b > 4608 then taken == 0
    else taken % 18 == 0 && 18 <= taken <= u && taken <= 864 && (taken + 18 > u || taken + 18 > 864)
  }

  /**
   A turn that finds less than a frame takes nothing; one that is lapped between query and read skips to the write
   position; any other takes the next bytes, as many whole frames as it found and the buffer holds.
   */
  lemma TurnMoves(s: Stream, poll: Poll)
    requires s.Ok()
    ensures var u, b := |s.bytes| + |Concat(poll.before)| - s.rp, |Concat(poll.between)|;
            var t, chunk := AfterTurn(s, poll), Chunk(s, poll);
            && Takes(u, b, |chunk|)
            && (if u >= 18 && u + b > 4608 then t.rp == |t.bytes| else t.rp == s.rp + |chunk|)
            && (chunk != [] ==> t.rp <= |t.bytes| && chunk == t.bytes[s.rp..t.rp])
  {
    RequestIsLargest(Queried(s, poll).Unread());
    AllOrNothing(Queried(s, poll), Concat(poll.between));
  }

  /** A turn that found no more than the buffer holds, and during which nothing arrived, leaves less than a frame. */
  lemma TurnCatchesUp(s: Stream, poll: Poll)
    requires s.Ok() && Concat(poll.between) == [] && |s.bytes| + |Concat(poll.before)| - s.rp <= 864
    ensures AfterTurn(s, poll).Unread() < 18
  {
    TurnMoves(s, poll);
  }

  /** Turns that neither sleep nor are lapped. */
  function HearingTurns(s: Stream, polls: seq<Poll>): int
    requires s.Ok()
  {
    |polls| - IdleTurns(s, polls) - LappedTurns(s, polls)
  }

  /** Each of them brings between one frame and a full buffer, and the others nothing. */
  lemma {:induction false} EachTurnHears(s: Stream, polls: seq<Poll>)
    requires s.Ok()
    ensures 18 * HearingTurns(s, polls) <= |HeardOver(s, polls)| <= 864 * HearingTurns(s, polls)
  {
    if polls != [] {
      var front, poll := polls[..|polls| - 1], polls[|polls| - 1];
      EachTurnHears(s, front);
      TurnMoves(AfterTurns(s, front), poll);
      TurnsOneMore(s, polls, front, poll);
      OneTurnHears(AfterTurns(s, front), poll);
    }
  }

  lemma OneTurnHears(s: Stream, poll: Poll)
    requires s.Ok()
    ensures if Idle(s, poll) || Ready(s, poll).Lapped() then Chunk(s, poll) == [] else 18 <= |Chunk(s, poll)| <= 864
  {
    TurnMoves(s, poll);
  }

  // ---- The methods ----

  method BridgeWrites(ring: Ring.Ring, packets: seq<seq<byte>>)
    requires ring.Valid() && UsbPackets(packets)
    modifies ring, ring.data
    ensures ring.Valid()
    ensures ring.history == old(ring.history).Publish(Concat(packets))
  {
    assert ring.history.bytes + [] == ring.history.bytes;
    for i := 0 to |packets|
      invariant ring.Valid()
      invariant ring.history == old(ring.history).Publish(Concat(packets[..i]))
    {
      assert packets[..i + 1][..i] == packets[..i];
      PublishTwice(old(ring.history), Concat(packets[..i]), packets[i]);
      ring.Write(packets[i]);
    }
    assert packets[..|packets|] == packets;
  }

  /**
   What the scanner has established about the bytes it was delivered since the drain: all whole frames,
   and every one of them looked at and found silent.
   */
  predicate NothingLoud(heard: seq<byte>, scanned: nat, maxSample: nat) {
    && |heard| == FRAME_SIZE * scanned
    && Silent(heard, scanned)
    && maxSample == Peak(heard, CHANNELS * scanned)
  }

  /** ... or that the frame counted last is the first loud one, and `looked` samples were looked at. */
  predicate FirstLoud(heard: seq<byte>, scanned: nat, looked: nat, maxSample: nat) {
    && |heard| % FRAME_SIZE == 0 && 0 < scanned && FRAME_SIZE * scanned <= |heard|
    && Silent(heard, scanned - 1) && StopsAt(heard, scanned - 1, looked)
    && maxSample > THRESHOLD && maxSample == Peak(heard, looked)
  }

  /** Where the search stands. */
  predicate Heard(heard: seq<byte>, detected: bool, detectSamples: nat, looked: nat, maxSample: nat) {
    if detected then FirstLoud(heard, detectSamples, looked, maxSample)
    else NothingLoud(heard, detectSamples, maxSample)
  }

  /** Either way the outcome says whether anything was loud. */
  lemma HeardDecides(heard: seq<byte>, detected: bool, detectSamples: nat, looked: nat, maxSample: nat)
    requires Heard(heard, detected, detectSamples, looked, maxSample)
    ensures |heard| % FRAME_SIZE == 0 && (detected <==> !AllSilent(heard))
  {
    if detected {
      StopIsLoud(heard, detectSamples - 1, looked);
    }
  }

  /** m is the largest distance from zero among the first n of these samples. */
  predicate IsPeak(v: seq<int>, n: nat, m: nat)
    requires n <= |v|
  {
    && (forall i :: 0 <= i < n ==> -(m as int) <= v[i] <= m)
    && (n == 0 ==> m == 0)
    && (n > 0 ==> exists i :: 0 <= i < n && (v[i] == m || v[i] == -(m as int)))
  }

  /** None of the first n samples is above the threshold. */
  predicate NoneAbove(v: seq<int>, n: nat)
    requires n <= |v|
  {
    forall i :: 0 <= i < n ==> -0x1_0000 <= v[i] <= 0x1_0000
  }

  /**
   An outcome on the samples: on detection sample looked - 1 is the first above the threshold, in the frame counted
   last; otherwise no sample is, and all frames are counted. The maximum is that of the samples looked at.
   */
  predicate Verdict(v: seq<int>, detected: bool, detectSamples: nat, looked: nat, maxSample: nat) {
    if detected then
      && 0 < looked <= |v| && (v[looked - 1] > 0x1_0000 || v[looked - 1] < -0x1_0000)
      && NoneAbove(v, looked - 1) && detectSamples == (looked - 1) / 6 + 1 && IsPeak(v, looked, maxSample)
    else
      NoneAbove(v, |v|) && |v| == 6 * detectSamples && IsPeak(v, |v|, maxSample)
  }

  lemma PeakIsPeak(bytes: seq<byte>, n: nat)
    requires |bytes| % 3 == 0 && 3 * n <= |bytes|
    ensures IsPeak(Decode(bytes), n, Peak(bytes, n))
  {
    var v := Decode(bytes);
    forall i | 0 <= i < n
      ensures -(Peak(bytes, n) as int) <= v[i] <= Peak(bytes, n)
    {
      DecodeAt(bytes, i);
      PeakBounds(bytes, n, i);
    }
    if n > 0 {
      var i := PeakAttained(bytes, n);
      DecodeAt(bytes, i);
    }
  }

  lemma LoudDecoded(bytes: seq<byte>, i: nat)
    requires |bytes| % 3 == 0 && 3 * (i + 1) <= |bytes|
    ensures LoudSample(bytes, i) <==> Decode(bytes)[i] > 0x1_0000 || Decode(bytes)[i] < -0x1_0000
  {
    DecodeAt(bytes, i);
    LoudMeans(bytes, i);
  }

  lemma FrameOf(i: nat, f: nat)
    ensures CHANNELS * f <= i < CHANNELS * (f + 1) <==> i / 6 == f
  {
  }

  lemma SilentSample(bytes: seq<byte>, frames: nat, i: nat)
    requires FRAME_SIZE * frames <= |bytes| && Silent(bytes, frames) && i < CHANNELS * frames
    ensures !LoudSample(bytes, i)
  {
    FrameOf(i, i / 6);
    assert !Loud(bytes, i / 6);
  }

  lemma QuietFrames(bytes: seq<byte>, frames: nat, n: nat)
    requires |bytes| % 3 == 0 && n == CHANNELS * frames && FRAME_SIZE * frames <= |bytes| && Silent(bytes, frames)
    ensures NoneAbove(Decode(bytes), n)
  {
    forall i | 0 <= i < n
      ensures -0x1_0000 <= Decode(bytes)[i] <= 0x1_0000
    {
      LoudDecoded(bytes, i);
      SilentSample(bytes, frames, i);
    }
  }

  lemma QuietUntilStop(bytes: seq<byte>, n: nat, last: nat)
    requires |bytes| % 3 == 0 && n <= last && 3 * (last + 1) <= |bytes|
    requires NoneAbove(Decode(bytes), n) && NoneLoud(bytes, n, last - n)
    ensures NoneAbove(Decode(bytes), last)
  {
    forall i | n <= i < last
      ensures -0x1_0000 <= Decode(bytes)[i] <= 0x1_0000
    {
      LoudDecoded(bytes, i);
    }
  }

  lemma DetectedOnSamples(heard: seq<byte>, detectSamples: nat, looked: nat, maxSample: nat)
    requires |heard| % 3 == 0 && FirstLoud(heard, detectSamples, looked, maxSample)
    ensures Verdict(Decode(heard), true, detectSamples, looked, maxSample)
  {
    var f := detectSamples - 1;
    QuietFrames(heard, f, CHANNELS * f);
    QuietUntilStop(heard, CHANNELS * f, looked - 1);
    LoudDecoded(heard, looked - 1);
    FrameOf(looked - 1, f);
    PeakIsPeak(heard, looked);
  }

  lemma HeardOnSamples(heard: seq<byte>, detected: bool, detectSamples: nat, looked: nat, maxSample: nat)
    requires Heard(heard, detected, detectSamples, looked, maxSample)
    ensures |heard| % 3 == 0 && Verdict(Decode(heard), detected, detectSamples, looked, maxSample)
  {
    assert |heard| % 3 == 0;
    if detected {
      DetectedOnSamples(heard, detectSamples, looked, maxSample);
    } else {
      QuietFrames(heard, detectSamples, CHANNELS * detectSamples);
      PeakIsPeak(heard, CHANNELS * detectSamples);
    }
  }

  /** A chunk with nothing loud in it extends the frames heard. */
  lemma HeardSilent(heard: seq<byte>, chunk: seq<byte>, scanned: nat, peak: nat, more: nat)
    requires NothingLoud(heard, scanned, peak)
    requires FRAME_SIZE * more == |chunk| && Silent(chunk, more)
    ensures NothingLoud(heard + chunk, scanned + more, Max(peak, Peak(chunk, CHANNELS * more)))
  {
    SilentJoin(heard, chunk, scanned, more);
    assert |heard| == 3 * (CHANNELS * scanned);
    PeakJoin(heard, chunk, CHANNELS * scanned, CHANNELS * more);
    assert CHANNELS * scanned + CHANNELS * more == CHANNELS * (scanned + more);
  }

  lemma StopOfSuffix(a: seq<byte>, b: seq<byte>, n: nat, f: nat, looked: nat)
    requires |a| == FRAME_SIZE * n && FRAME_SIZE * (f + 1) <= |b| && StopsAt(b, f, looked)
    ensures StopsAt(a + b, n + f, CHANNELS * n + looked)
  {
    var shift := CHANNELS * n;
    SampleOfSuffix(a, b, shift, looked - 1);
    assert CHANNELS * (n + f) == shift + CHANNELS * f && CHANNELS * (n + f + 1) == shift + CHANNELS * (f + 1);
    forall i | shift + CHANNELS * f <= i < shift + looked - 1
      ensures !LoudSample(a + b, i)
    {
      SampleOfSuffix(a, b, shift, i - shift);
      assert !LoudSample(b, i - shift);
    }
  }

  /** A chunk whose first loud frame was the last one counted ends the search. */
  lemma HeardLoud(heard: seq<byte>, chunk: seq<byte>, scanned: nat, peak0: nat, more: nat, looked: nat, peak: nat)
    requires NothingLoud(heard, scanned, peak0)
    requires |chunk| % FRAME_SIZE == 0 && 0 < more && FRAME_SIZE * more <= |chunk|
    requires Silent(chunk, more - 1) && StopsAt(chunk, more - 1, looked)
    requires peak > THRESHOLD && peak == Max(peak0, Peak(chunk, looked))
    ensures FirstLoud(heard + chunk, scanned + more, CHANNELS * scanned + looked, peak)
  {
    WholeFramesHeard(heard, chunk, scanned, more);
    SilentJoin(heard, chunk, scanned, more - 1);
    StopOfSuffix(heard, chunk, scanned, more - 1, looked);
    PeakHeard(heard, chunk, scanned, looked, peak0);
  }

  lemma WholeFramesHeard(heard: seq<byte>, chunk: seq<byte>, scanned: nat, more: nat)
    requires |heard| == FRAME_SIZE * scanned && |chunk| % FRAME_SIZE == 0 && FRAME_SIZE * more <= |chunk|
    ensures |heard + chunk| % FRAME_SIZE == 0 && FRAME_SIZE * (scanned + more) <= |heard + chunk|
    ensures 0 < more ==> scanned + more - 1 == scanned + (more - 1)
  {
  }

  lemma PeakHeard(heard: seq<byte>, chunk: seq<byte>, scanned: nat, looked: nat, peak0: nat)
    requires |heard| == FRAME_SIZE * scanned && 3 * looked <= |chunk| && peak0 == Peak(heard, CHANNELS * scanned)
    ensures Peak(heard + chunk, CHANNELS * scanned + looked) == Max(peak0, Peak(chunk, looked))
  {
    assert |heard| == 3 * (CHANNELS * scanned);
    PeakJoin(heard, chunk, CHANNELS * scanned, looked);
  }

  lemma StopOfPrefix(a: seq<byte>, b: seq<byte>, f: nat, looked: nat)
    requires FRAME_SIZE * (f + 1) <= |a| && StopsAt(a + b, f, looked)
    ensures StopsAt(a, f, looked)
  {
    SampleOfPrefix(a, b, looked - 1);
    forall i | CHANNELS * f <= i < looked - 1
      ensures !LoudSample(a, i)
    {
      SampleOfPrefix(a, b, i);
      assert !LoudSample(a + b, i);
    }
  }

  lemma SilentOfPrefix(a: seq<byte>, b: seq<byte>, n: nat)
    requires FRAME_SIZE * n <= |a| && Silent(a + b, n)
    ensures Silent(a, n)
  {
    forall f | 0 <= f < n
      ensures !Loud(a, f)
    {
      LoudOfPrefix(a, b, f);
    }
  }

  /** The scan results for a chunk at the front of a larger buffer are about the chunk. */
  lemma ReportOfPrefix(chunk: seq<byte>, rest: seq<byte>, frames: nat, detected: bool, scanned: nat, looked: nat,
                       earlier: nat, peak: nat)
    requires FRAME_SIZE * frames <= |chunk| && Report(chunk + rest, frames, detected, scanned, looked, earlier, peak)
    ensures Report(chunk, frames, detected, scanned, looked, earlier, peak)
  {
    if detected {
      SilentOfPrefix(chunk, rest, scanned - 1);
      StopOfPrefix(chunk, rest, scanned - 1, looked);
    } else {
      SilentOfPrefix(chunk, rest, frames);
    }
    PeakOfPrefix(chunk, rest, looked);
  }

  /** The frame-aligned read, after whatever the bridge published since the query. */
  method ReadFrames(ring: Ring.Ring, buf: array<byte>, avail: nat, between: seq<seq<byte>>)
    returns (got: nat)
    requires ring.Valid() && buf != ring.data && buf.Length == BUF_BYTES && UsbPackets(between)
    requires avail == ring.history.Unread()
    modifies ring, ring.data, buf
    ensures ring.Valid()
    ensures var ready := old(ring.history).Publish(Concat(between));
            && ring.history == ready.Consume(FrameAligned(avail))
            && got == (if ready.Lapped() then 0 else FrameAligned(avail)) <= BUF_BYTES
            && buf[..got] == ready.Received(FrameAligned(avail))
  {
    var toRead := if avail < BUF_BYTES then avail else BUF_BYTES;
    toRead := toRead / FRAME_SIZE * FRAME_SIZE;
    AllOrNothing(ring.history, Concat(between));
    BridgeWrites(ring, between);
    ghost var was := buf[..];
    ghost var chunk := ring.history.Received(toRead);
    got := ring.Read(buf, 0, toRead);
    AtFront(was, chunk, was[got..]);
  }

  lemma AtFront(was: seq<byte>, chunk: seq<byte>, rest: seq<byte>)
    ensures (was[..0] + chunk + rest)[..|chunk|] == chunk
  {
  }

  /** One non-idle turn of the loop: read whole frames, scan them. */
  method PollOnce(ring: Ring.Ring, buf: array<byte>, avail: nat, between: seq<seq<byte>>, maxSample: nat)
    returns (detected: bool, scanned: nat, peak: nat, ghost looked: nat)
    requires ring.Valid() && buf != ring.data && buf.Length == BUF_BYTES && UsbPackets(between)
    requires avail == ring.history.Unread()
    modifies ring, ring.data, buf
    ensures ring.Valid()
    ensures var ready := old(ring.history).Publish(Concat(between));
            var chunk := ready.Received(FrameAligned(avail));
            && ring.history == ready.Consume(FrameAligned(avail))
            && |chunk| == (if ready.Lapped() then 0 else FrameAligned(avail)) && |chunk| % FRAME_SIZE == 0
            && Report(chunk, |chunk| / FRAME_SIZE, detected, scanned, looked, maxSample, peak)
  {
    AllOrNothing(ring.history, Concat(between));
    var got := ReadFrames(ring, buf, avail, between);
    detected, scanned, peak, looked := ScanFrames(buf, got / FRAME_SIZE, maxSample);
    assert buf[..got] + buf[got..] == buf[..];
    ReportOfPrefix(buf[..got], buf[got..], got / FRAME_SIZE, detected, scanned, looked, maxSample, peak);
  }

  /** The search after one more chunk. */
  lemma HeardMore(heard: seq<byte>, chunk: seq<byte>, samples0: nat, peak0: nat,
                  detected: bool, more: nat, looked: nat, peak: nat,
                  all: seq<byte>, detectSamples: nat, allLooked: nat)
    requires NothingLoud(heard, samples0, peak0) && |chunk| % FRAME_SIZE == 0
    requires Report(chunk, |chunk| / FRAME_SIZE, detected, more, looked, peak0, peak)
    requires all == heard + chunk && detectSamples == samples0 + more && allLooked == CHANNELS * samples0 + looked
    ensures Heard(all, detected, detectSamples, allLooked, peak)
  {
    if detected {
      HeardLoud(heard, chunk, samples0, peak0, more, looked, peak);
    } else {
      HeardSilent(heard, chunk, samples0, peak0, more);
    }
  }

  /** Everything the loop knows after the turns taken. */
  ghost predicate Searched(s: Stream, taken: seq<Poll>, now: Stream, detected: bool, detectSamples: nat, looked: nat,
                           maxSample: nat, elapsedUs: nat)
    requires s.Ok()
  {
    && now == AfterTurns(s, taken)
    && Heard(HeardOver(s, taken), detected, detectSamples, looked, maxSample)
    && elapsedUs == POLL_US * IdleTurns(s, taken)
  }

  /** What a turn adds to the ring, to what was heard and to the idle turns. */
  ghost predicate Adds(s: Stream, poll: Poll, heard: seq<byte>, idle: nat, now: Stream, more: seq<byte>, idleNow: nat)
    requires s.Ok()
  {
    && now == AfterTurn(s, poll) && more == heard + Chunk(s, poll)
    && idleNow == idle + if Idle(s, poll) then 1 else 0
  }

  /** The ring, what was heard and the number of idle turns after these turns. */
  ghost predicate At(s: Stream, taken: seq<Poll>, now: Stream, heard: seq<byte>, idle: nat)
    requires s.Ok()
  {
    now == AfterTurns(s, taken) && heard == HeardOver(s, taken) && idle == IdleTurns(s, taken)
  }

  lemma TurnAdds(s: Stream, polls: seq<Poll>, n: nat, next: nat, was: Stream, heard: seq<byte>, idle: nat,
                 now: Stream, more: seq<byte>, idleNow: nat)
    requires s.Ok() && was.Ok() && n < next == n + 1 <= |polls| && At(s, polls[..n], was, heard, idle)
    requires Adds(was, polls[n], heard, idle, now, more, idleNow)
    ensures At(s, polls[..next], now, more, idleNow)
  {
    TakeNext(polls, n, next);
    TurnsOneMore(s, polls[..next], polls[..n], polls[n]);
  }

  /** What a turn does when the query found a whole frame. */
  method BusyTurn(ring: Ring.Ring, buf: array<byte>, avail: nat, between: seq<seq<byte>>, samples0: nat, peak0: nat,
                  ghost heard0: seq<byte>)
    returns (detected: bool, detectSamples: nat, maxSample: nat, ghost looked: nat, ghost heard: seq<byte>)
    requires ring.Valid() && buf != ring.data && buf.Length == BUF_BYTES && UsbPackets(between)
    requires avail == ring.history.Unread() && NothingLoud(heard0, samples0, peak0)
    modifies ring, ring.data, buf
    ensures ring.Valid()
    ensures var ready := old(ring.history).Publish(Concat(between));
            && ring.history == ready.Consume(FrameAligned(avail))
            && heard == heard0 + ready.Received(FrameAligned(avail))
    ensures Heard(heard, detected, detectSamples, looked, maxSample)
  {
    ghost var chunk := ring.history.Publish(Concat(between)).Received(FrameAligned(avail));
    var more;
    ghost var lookedHere;
    detected, more, maxSample, lookedHere := PollOnce(ring, buf, avail, between, peak0);
    detectSamples, looked, heard := samples0 + more, CHANNELS * samples0 + lookedHere, heard0 + chunk;
    HeardMore(heard0, chunk, samples0, peak0, detected, more, lookedHere, maxSample, heard, detectSamples, looked);
  }

  /** One turn of the loop: query the ring, then read and scan, or sleep. */
  method Turn(ring: Ring.Ring, buf: array<byte>, poll: Poll, samples0: nat, peak0: nat, elapsed0: nat,
              ghost heard0: seq<byte>, ghost idle0: nat)
    returns (detected: bool, detectSamples: nat, maxSample: nat, elapsedUs: nat,
             ghost looked: nat, ghost heard: seq<byte>, ghost idle: nat)
    requires ring.Valid() && buf != ring.data && buf.Length == BUF_BYTES
    requires UsbPackets(poll.before) && UsbPackets(poll.between)
    requires NothingLoud(heard0, samples0, peak0) && elapsed0 == POLL_US * idle0
    modifies ring, ring.data, buf
    ensures ring.Valid() && Adds(old(ring.history), poll, heard0, idle0, ring.history, heard, idle)
    ensures Heard(heard, detected, detectSamples, looked, maxSample) && elapsedUs == POLL_US * idle
  {
    ghost var s := ring.history;
    BridgeWrites(ring, poll.before);
    var avail := ring.Available();
    if avail >= FRAME_SIZE {
      TurnUnfolds(s, poll, ring.history, avail);
      detected, detectSamples, maxSample, looked, heard :=
        BusyTurn(ring, buf, avail, poll.between, samples0, peak0, heard0);
      elapsedUs, idle := elapsed0, idle0;
    } else {
      BridgeWrites(ring, poll.between);
      detected, detectSamples, maxSample, looked := false, samples0, peak0, 0;
      elapsedUs, idle, heard := elapsed0 + POLL_US, idle0 + 1, heard0;
      assert heard0 == heard0 + [];
    }
  }

  /** The loop took these turns and no more: it ended at the first after which it does not go on, or with the script. */
  ghost predicate Ended(s: Stream, polls: seq<Poll>, turns: nat)
    requires s.Ok()
  {
    && turns <= |polls|
    && (turns < |polls| ==> !GoesOn(s, polls[..turns]))
    && (turns > 0 ==> GoesOn(s, polls[..turns - 1]))
  }

  /** A loop that ended before its script without detecting slept exactly three seconds, in turns of 100 us. */
  lemma TimeIsUp(s: Stream, polls: seq<Poll>, turns: nat)
    requires s.Ok() && Ended(s, polls, turns) && turns < |polls| && AllSilent(HeardOver(s, polls[..turns]))
    ensures IdleTurns(s, polls[..turns]) == 30000
  {
    if turns > 0 {
      assert polls[..turns][..turns - 1] == polls[..turns - 1];
    }
  }

  /** The polling loop, over any finite script of what the bridge does meanwhile. */
  method Listen(ring: Ring.Ring, polls: seq<Poll>)
    returns (detected: bool, detectSamples: nat, maxSample: nat, elapsedUs: nat, turns: nat, ghost looked: nat)
    requires ring.Valid() && UsbPolls(polls)
    modifies ring, ring.data
    ensures ring.Valid() && Ended(old(ring.history), polls, turns)
    ensures Searched(old(ring.history), polls[..turns], ring.history,
                     detected, detectSamples, looked, maxSample, elapsedUs)
    ensures detected || elapsedUs >= TIMEOUT_US || turns == |polls|
  {
    ghost var s := ring.history;
    ghost var heard, idle := [], 0;
    detected, detectSamples, maxSample, elapsedUs, turns, looked := false, 0, 0, 0, 0, 0;
    var buf := new byte[BUF_BYTES];
    while elapsedUs < TIMEOUT_US && turns < |polls| && !detected
      invariant turns <= |polls| && ring.Valid()
      invariant At(s, polls[..turns], ring.history, heard, idle)
      invariant Heard(heard, detected, detectSamples, looked, maxSample) && elapsedUs == POLL_US * idle
      invariant turns > 0 ==> GoesOn(s, polls[..turns - 1])
    {
      HeardDecides(heard, detected, detectSamples, looked, maxSample);
      ghost var was, before, idleBefore := ring.history, heard, idle;
      detected, detectSamples, maxSample, elapsedUs, looked, heard, idle :=
        Turn(ring, buf, polls[turns], detectSamples, maxSample, elapsedUs, heard, idle);
      TurnAdds(s, polls, turns, turns + 1, was, before, idleBefore, ring.history, heard, idle);
      turns := turns + 1;
    }
    HeardDecides(heard, detected, detectSamples, looked, maxSample);
  }

  method SendImpulse(outRing: Ring.Ring)
    requires outRing.Valid()
    modifies outRing, outRing.data
    ensures outRing.Valid()
    ensures outRing.history == old(outRing.history).Publish(Encode(ImpulseSamples(CHANNELS * IMPULSE_FRAMES)))
  {
    var impulse := BuildImpulse();
    outRing.Write(impulse[..]);
  }

  // ---- What an outcome means for the stream ----

  /** The frames of the stream between two positions are all silent. */
  predicate SilentBetween(bytes: seq<byte>, from: nat, upto: nat)
    requires from <= upto <= |bytes|
  {
    AllSilent(bytes[from..upto])
  }

  /**
   The IN ring has gone from `before` to `now`, through a drain and these turns. It has grown by what they publish,
   and unless the scanner was lapped, which the ledger shows, what it heard is the stream from the drain to its read
   position: nothing detected means that every frame of that stretch is silent, and detection that one is not.
   */
  ghost predicate Meaning(before: Stream, taken: seq<Poll>, now: Stream, detected: bool)
    requires before.Ok()
  {
    var heard := HeardOver(before.Reconnect(), taken);
    && now.Sound(0) && now.bytes == before.bytes + PublishedOver(taken)
    && Delivered(now.log) == Delivered(before.log) + heard
    && Laps(now.log) == Laps(before.log) + LappedTurns(before.Reconnect(), taken)
    && (Laps(now.log) == Laps(before.log) ==>
          && before.Wp() <= now.rp
          && heard == now.bytes[before.Wp()..now.rp]
          && (detected <==> !SilentBetween(now.bytes, before.Wp(), now.rp)))
  }

  lemma OutcomeMeans(before: Stream, taken: seq<Poll>, now: Stream,
                     detected: bool, detectSamples: nat, looked: nat, maxSample: nat, elapsedUs: nat)
    requires before.Sound(0)
    requires Searched(before.Reconnect(), taken, now, detected, detectSamples, looked, maxSample, elapsedUs)
    ensures Meaning(before, taken, now, detected)
  {
    var s := before.Reconnect();
    ApplyEffect(before, Sync, 0);
    TurnsDeliver(s, taken, 0);
    HeardDecides(HeardOver(s, taken), detected, detectSamples, looked, maxSample);
    if Laps(now.log) == Laps(before.log) {
      NothingMissed(s, taken);
    }
  }

  /**
   On detection, detectSamples is the 1-based index, in the frames delivered since the drain, of the first
   loud frame; otherwise every delivered frame was looked at, none was loud, and maxSample is the largest
   magnitude heard. What was delivered is determined by the script: it ends with the first loud frame's read,
   with the time, or with the script.
   */
  method RunLoopback(inRing: Ring.Ring, outRing: Ring.Ring, polls: seq<Poll>)
    returns (detected: bool, detectSamples: nat, maxSample: nat, elapsedUs: nat, turns: nat, ghost looked: nat)
    requires inRing.Valid() && outRing.Valid() && inRing != outRing && inRing.data != outRing.data
    requires UsbPolls(polls)
    modifies inRing, inRing.data, outRing, outRing.data
    ensures inRing.Valid() && outRing.Valid()
    ensures var s := old(inRing.history).Reconnect();
            && Ended(s, polls, turns)
            && Searched(s, polls[..turns], inRing.history, detected, detectSamples, looked, maxSample, elapsedUs)
    ensures detected || elapsedUs >= TIMEOUT_US || turns == |polls|
    ensures Meaning(old(inRing.history), polls[..turns], inRing.history, detected)
    ensures var heard := HeardOver(old(inRing.history).Reconnect(), polls[..turns]);
            |heard| % 3 == 0 && Verdict(Decode(heard), detected, detectSamples, looked, maxSample)
    ensures outRing.history == old(outRing.history).Publish(Encode(ImpulseSamples(CHANNELS * IMPULSE_FRAMES)))
  {
    ghost var before := inRing.history;
    inRing.Resync();
    SendImpulse(outRing);
    detected, detectSamples, maxSample, elapsedUs, turns, looked := Listen(inRing, polls);
    OutcomeMeans(before, polls[..turns], inRing.history, detected, detectSamples, looked, maxSample, elapsedUs);
    HeardOnSamples(HeardOver(before.Reconnect(), polls[..turns]), detected, detectSamples, looked, maxSample);
  }
}
