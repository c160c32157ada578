/** The shared-memory segment: identification header, the two rings and the frame counter. */
module SharedMemory {
  import opened Protocol
  import RingModel
  import Ring

  const MAGIC: nat := 0x444A_4D31
  const VERSION: nat := 1
  const SAMPLE_RATE: nat := 48000
  const BITS_PER_SAMPLE: nat := 24

  datatype Header = Header(
    magic: nat, version: nat, sampleRate: nat, channels: nat,
    bitsPerSample: nat, frameSize: nat, ringFrames: nat, ringBytes: nat)

  /** The four fields a client checks before it trusts the segment. */
  predicate Validates(h: Header) {
    h.magic == MAGIC && h.version == VERSION && h.frameSize == FRAME_SIZE && h.ringBytes == RING_BYTES
  }

  /** The header shm_init writes. */
  const INITIALISED: Header := Header(0x444A_4D31, 1, 48000, 6, 24, 18, 256, 4608)

  /** Exactly the headers that are the initialised one up to the four fields nobody checks. */
  lemma ValidatesIff(h: Header)
    ensures Validates(h) <==>
            h == INITIALISED.(sampleRate := h.sampleRate, channels := h.channels,
                              bitsPerSample := h.bitsPerSample, ringFrames := h.ringFrames)
  {
  }

  class Segment {
    var header: Header
    const inRing: Ring.Ring
    const outRing: Ring.Ring
    var sampleCount: nat

    ghost const Repr: set<object> := {this, inRing, inRing.data, outRing, outRing.data}

    ghost predicate Valid()
      reads Repr
    {
      && inRing != outRing && inRing.data != outRing.data
      && inRing.Valid() && outRing.Valid()
    }

    /** shm_init */
    constructor ()
      ensures Valid() && fresh(Repr) && Validates(header) && header == INITIALISED
      ensures inRing.history == RingModel.EMPTY && outRing.history == RingModel.EMPTY && sampleCount == 0
    {
      header := Header(MAGIC, VERSION, SAMPLE_RATE, CHANNELS, BITS_PER_SAMPLE, FRAME_SIZE, RING_FRAMES, RING_BYTES);
      inRing := new Ring.Ring();
      outRing := new Ring.Ring();
      sampleCount := 0;
    }
  }
}
