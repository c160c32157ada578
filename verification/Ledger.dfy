/** The consumer's ledger: what every read returned and what every skip dropped, in order. */
module Ledger {
  import opened Protocol

  datatype Entry =
    | Got(from: nat, bytes: seq<byte>)      // a read that copied bytes
    | Lap(from: nat, upto: nat)             // a read that found itself lapped
    | Resync(from: nat, upto: nat)          // a consumer that jumped to the write position
  {
    function Upto(): nat {
      if Got? then from + |bytes| else upto
    }
  }

  /** The entries cover [start, end) without gap or overlap, oldest first, and every lap is more than a ring. */
  predicate Tiles(log: seq<Entry>, start: nat, end: nat) {
    if log == [] then start == end
    else
      var e := log[|log| - 1];
      && e.from <= e.Upto() == end && (e.Lap? ==> end > e.from + RING_BYTES)
      && Tiles(log[..|log| - 1], start, e.from)
  }

  /** Every read returned the stream bytes of the interval it claims. */
  predicate Faithful(log: seq<Entry>, stream: seq<byte>) {
    if log == [] then true
    else
      var e := log[|log| - 1];
      && (e.Got? ==> e.Upto() <= |stream| && e.bytes == stream[e.from..e.Upto()])
      && Faithful(log[..|log| - 1], stream)
  }

  function Delivered(log: seq<Entry>): seq<byte> {
    if log == [] then []
    else
      var e := log[|log| - 1];
      Delivered(log[..|log| - 1]) + if e.Got? then e.bytes else []
  }

  function Skipped(log: seq<Entry>): int {
    if log == [] then 0
    else
      var e := log[|log| - 1];
      Skipped(log[..|log| - 1]) + if e.Got? then 0 else e.upto - e.from
  }

  function Laps(log: seq<Entry>): nat {
    if log == [] then 0
    else Laps(log[..|log| - 1]) + if log[|log| - 1].Lap? then 1 else 0
  }

  predicate IsSkipped(log: seq<Entry>, k: nat) {
    exists e <- log :: !e.Got? && e.from <= k < e.upto
  }

  /** stream[lo..hi] without the positions some skip dropped. */
  function Kept(stream: seq<byte>, log: seq<Entry>, lo: nat, hi: nat): seq<byte>
    requires lo <= hi <= |stream|
  {
    if lo == hi then []
    else Kept(stream, log, lo, hi - 1) + if IsSkipped(log, hi - 1) then [] else [stream[hi - 1]]
  }

  lemma Append(log: seq<Entry>, e: Entry)
    ensures (log + [e])[..|log + [e]| - 1] == log
    ensures Delivered(log + [e]) == Delivered(log) + if e.Got? then e.bytes else []
    ensures Skipped(log + [e]) == Skipped(log) + if e.Got? then 0 else e.upto - e.from
    ensures Laps(log + [e]) == Laps(log) + if e.Lap? then 1 else 0
  {
    assert (log + [e])[..|log + [e]| - 1] == log;
  }

  lemma AppendTiles(log: seq<Entry>, e: Entry, start: nat)
    ensures Tiles(log + [e], start, e.Upto()) <==>
            e.from <= e.Upto() && (e.Lap? ==> e.upto > e.from + RING_BYTES) && Tiles(log, start, e.from)
  {
    assert (log + [e])[..|log + [e]| - 1] == log;
  }

  lemma AppendFaithful(log: seq<Entry>, e: Entry, stream: seq<byte>)
    ensures Faithful(log + [e], stream) <==>
            Faithful(log, stream) && (e.Got? ==> e.Upto() <= |stream| && e.bytes == stream[e.from..e.Upto()])
  {
    assert (log + [e])[..|log + [e]| - 1] == log;
  }

  lemma {:induction false} FaithfulGrows(log: seq<Entry>, stream: seq<byte>, more: seq<byte>)
    requires Faithful(log, stream)
    ensures Faithful(log, stream + more)
  {
    if log != [] {
      FaithfulGrows(log[..|log| - 1], stream, more);
      var e := log[|log| - 1];
      if e.Got? {
        assert (stream + more)[e.from..e.Upto()] == stream[e.from..e.Upto()];
      }
    }
  }

  /** Nothing is lost unaccounted and nothing is counted twice. */
  lemma {:induction false} Conservation(log: seq<Entry>, start: nat, end: nat)
    requires Tiles(log, start, end)
    ensures start <= end
    ensures |Delivered(log)| + Skipped(log) == end - start
  {
    if log != [] {
      Conservation(log[..|log| - 1], start, log[|log| - 1].from);
    }
  }

  /** Each lap drops more than a whole ring, so laps are rare. */
  lemma {:induction false} LapBound(log: seq<Entry>, start: nat, end: nat)
    requires Tiles(log, start, end)
    ensures start <= end && Laps(log) * (RING_BYTES + 1) <= end - start
  {
    if log != [] {
      LapBound(log[..|log| - 1], start, log[|log| - 1].from);
    }
  }

  lemma {:induction false} EntriesInside(log: seq<Entry>, start: nat, end: nat)
    requires Tiles(log, start, end)
    ensures forall e <- log :: start <= e.from <= e.Upto() <= end
  {
    if log != [] {
      EntriesInside(log[..|log| - 1], start, log[|log| - 1].from);
      Conservation(log[..|log| - 1], start, log[|log| - 1].from);
    }
  }

  lemma {:induction false} KeptSame(stream: seq<byte>, a: seq<Entry>, b: seq<Entry>, lo: nat, hi: nat)
    requires lo <= hi <= |stream|
    requires forall k: nat :: lo <= k < hi ==> IsSkipped(a, k) == IsSkipped(b, k)
    ensures Kept(stream, a, lo, hi) == Kept(stream, b, lo, hi)
  {
    if lo < hi {
      KeptSame(stream, a, b, lo, hi - 1);
    }
  }

  lemma {:induction false} KeptAll(stream: seq<byte>, log: seq<Entry>, lo: nat, mid: nat, hi: nat)
    requires lo <= mid <= hi <= |stream|
    requires forall k: nat :: mid <= k < hi ==> !IsSkipped(log, k)
    ensures Kept(stream, log, lo, hi) == Kept(stream, log, lo, mid) + stream[mid..hi]
  {
    if mid < hi {
      KeptAll(stream, log, lo, mid, hi - 1);
      assert stream[mid..hi] == stream[mid..hi - 1] + [stream[hi - 1]];
    }
  }

  lemma {:induction false} KeptNone(stream: seq<byte>, log: seq<Entry>, lo: nat, mid: nat, hi: nat)
    requires lo <= mid <= hi <= |stream|
    requires forall k: nat :: mid <= k < hi ==> IsSkipped(log, k)
    ensures Kept(stream, log, lo, hi) == Kept(stream, log, lo, mid)
  {
    if mid < hi {
      KeptNone(stream, log, lo, mid, hi - 1);
    }
  }

  /** What a faithful consumer receives is the stream with the skipped intervals cut out. */
  lemma {:induction false} DeliveredIsKept(log: seq<Entry>, stream: seq<byte>, lo: nat, hi: nat)
    requires Tiles(log, lo, hi) && Faithful(log, stream) && lo <= hi <= |stream|
    ensures Delivered(log) == Kept(stream, log, lo, hi)
  {
    if log != [] {
      var e, front := log[|log| - 1], log[..|log| - 1];
      Conservation(front, lo, e.from);
      EntriesInside(front, lo, e.from);
      DeliveredIsKept(front, stream, lo, e.from);
      assert log == front + [e];
      KeptSame(stream, log, front, lo, e.from);
      if e.Got? {
        KeptAll(stream, log, lo, e.from, hi);
      } else {
        KeptNone(stream, log, lo, e.from, hi);
      }
    }
  }
}
