/** The AudioServerPlugin's end of both rings. */
module Plugin {
  import opened Protocol
  import opened RingModel
  import Ring
  import SharedMemory

  class IOHandler {
    var shm: SharedMemory.Segment?

    ghost predicate Valid()
      reads this, if shm == null then {} else shm.Repr
    {
      shm != null ==> this !in shm.Repr && shm.Valid()
    }

    constructor ()
      ensures Valid() && shm == null
    {
      shm := null;
    }

    /** found is what opening and mapping the segment yields, null when that fails. */
    method ConnectToShm(found: SharedMemory.Segment?) returns (ok: bool)
      requires Valid() && (found != null ==> this !in found.Repr && found.Valid())
      modifies this, if found == null then {} else {found.inRing}
      ensures Valid()
      ensures ok <==> old(shm) != null || (found != null && SharedMemory.Validates(found.header))
      ensures shm == if old(shm) != null then old(shm) else if ok then found else null
      ensures found != null ==>
                found.inRing.history == if old(shm) == null && ok then old(found.inRing.history).Reconnect()
                                        else old(found.inRing.history)
    {
      if shm != null {
        return true;
      }
      if found == null {
        return false;
      }
      if !SharedMemory.Validates(found.header) {
        return false;
      }
      shm := found;
      found.inRing.Resync();
      return true;
    }

    method DisconnectFromShm()
      modifies this
      ensures Valid() && shm == null
    {
      shm := null;
    }

    /** Fills all of dst: what the IN ring delivers, then silence; silence only while not connected. */
    method OnReadClientInput(dst: array<byte>)
      requires Valid() && (shm != null ==> dst !in shm.Repr)
      modifies dst, if shm == null then {} else {shm.inRing}
      ensures Valid() && shm == old(shm)
      ensures shm == null ==> dst[..] == Silence(dst.Length)
      ensures shm != null ==>
                && dst[..] == Padded(old(shm.inRing.history).Received(dst.Length), dst.Length)
                && shm.inRing.history == old(shm.inRing.history).Consume(dst.Length)
    {
      if shm == null {
        Ring.Memset(dst, 0, dst.Length);
        return;
      }
      var got := shm.inRing.Read(dst, 0, dst.Length);
      if got < dst.Length {
        Ring.Memset(dst, got, dst.Length - got);
      }
    }

    /** Publishes all of src on the OUT ring, or drops it while not connected. */
    method OnWriteMixedOutput(src: seq<byte>)
      requires Valid()
      requires shm != null ==> |src| <= 2 * RING_BYTES - Slot(shm.outRing.writePos)
      modifies if shm == null then {} else {shm.outRing, shm.outRing.data}
      ensures Valid() && shm == old(shm)
      ensures shm != null ==> shm.outRing.history == old(shm.outRing.history).Publish(src)
    {
      if shm == null {
        return;
      }
      shm.outRing.Write(src);
    }
  }
}
