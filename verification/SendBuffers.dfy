/** The send-buffer classes as one thread uses them. Each operation is tied to the operation on chunk values that the
    step system of the pool takes its steps from. */
module SendBuffers {
  import opened Bytes
  import opened Chunks
  import Framing

  class SendBufferChunk {
    const buffer: array<byte>
    var open: bool
    var usedSize: nat

    ghost predicate Valid()
      reads this
    {
      buffer.Length == CHUNK_SIZE && usedSize <= CHUNK_SIZE
    }

    ghost function Value(): Chunk
      reads this, buffer
    {
      Chunk(buffer[..], open, usedSize)
    }

    constructor ()
      ensures Valid() && Value() == NewChunk() && fresh(buffer)
    {
      buffer := new byte[CHUNK_SIZE](_ => 0);
      open, usedSize := false, 0;
    }

    function FreeSize(): (n: nat)
      requires Valid()
      reads this
      ensures n == Value().FreeSize()
    {
      CHUNK_SIZE - usedSize
    }

    method Reset()
      requires Valid()
      modifies this
      ensures Valid() && Value() == old(Value()).Reset()
    {
      open, usedSize := false, 0;
    }

    method Open(allocSize: nat) returns (r: OpenResult)
      requires Valid()
      modifies this
      ensures Valid()
      ensures match old(Value()).Open(allocSize)
              case Crash => r.Crashed? && Value() == old(Value())
              case NoRoom => r.Null? && Value() == old(Value())
              case Opened(chunk) =>
                && r.Buffer? && fresh(r.buffer) && Value() == chunk
                && r.buffer.owner == this && r.buffer.offset == usedSize && r.buffer.allocSize == allocSize
                && r.buffer.writeSize == 0 && usedSize + allocSize <= CHUNK_SIZE
    {
      if allocSize > CHUNK_SIZE || open {
        return Crashed;
      }
      if allocSize > FreeSize() {
        return Null;
      }
      open := true;
      var b := new SendBuffer(this, usedSize, allocSize);
      return Buffer(b);
    }

    /** The half of SendBuffer.Close that belongs to the chunk; false when the assertion stops the process. Nothing here
        keeps the used size in bounds: that is up to the one buffer that was opened. */
    method Close(writeSize: nat) returns (ok: bool)
      modifies this
      ensures ok == old(open)
      ensures old(Valid()) && usedSize <= CHUNK_SIZE ==> Valid()
      ensures Value() == if ok then old(Value()).(open := false, used := old(usedSize) + writeSize) else old(Value())
    {
      if !open {
        return false;
      }
      open, usedSize := false, usedSize + writeSize;
      return true;
    }
  }

  class SendBuffer {
    const owner: SendBufferChunk
    const offset: nat
    const allocSize: nat
    var writeSize: nat

    constructor (owner: SendBufferChunk, offset: nat, allocSize: nat)
      ensures this.owner == owner && this.offset == offset && this.allocSize == allocSize && writeSize == 0
    {
      this.owner, this.offset, this.allocSize, writeSize := owner, offset, allocSize, 0;
    }

    method Close(writeSize: nat) returns (ok: bool)
      modifies this, owner
      ensures old(owner.Valid()) && old(owner.usedSize) + allocSize <= CHUNK_SIZE ==> owner.Valid()
      ensures match old(owner.Value()).Close(allocSize, writeSize)
              case CloseCrash => !ok && owner.Value() == old(owner.Value())
              case Closed(chunk) => ok && owner.Value() == chunk && this.writeSize == writeSize
    {
      if allocSize < writeSize {
        return false;
      }
      this.writeSize := writeSize;
      ok := owner.Close(writeSize);
    }
  }

  /** Crashed: an assertion stopped the process. Null: the null reference. */
  datatype OpenResult = Crashed | Null | Buffer(buffer: SendBuffer)

  class SendBufferManager {
    var free: seq<SendBufferChunk>

    ghost predicate Valid()
      reads this, free
    {
      && (forall c :: c in free ==> c.Valid())
      && (forall i, j :: 0 <= i < j < |free| ==> free[i] != free[j])
    }

    constructor ()
      ensures Valid() && free == []
    {
      free := [];
    }

    method Pop() returns (c: SendBufferChunk)
      requires Valid()
      modifies this
      ensures Valid() && c.Valid() && c !in free
      ensures if old(free) != [] then c == old(free)[|old(free)| - 1] && free == old(free)[..|old(free)| - 1]
              else fresh(c) && fresh(c.buffer) && free == []
    {
      if free != [] {
        c := free[|free| - 1];
        free := free[..|free| - 1];
      } else {
        c := new SendBufferChunk();
      }
    }

    method Push(c: SendBufferChunk)
      requires Valid() && c.Valid() && c !in free
      modifies this
      ensures Valid() && free == old(free) + [c]
    {
      free := free + [c];
    }

    /** slot is the thread-local chunk, null at first. The chunk returned is the slot from now on. An assertion stops
        the process when the slot is open or the size is above that of a chunk. */
    method Open(slot: SendBufferChunk?, size: nat) returns (next: SendBufferChunk, r: OpenResult)
      requires Valid() && (slot != null ==> slot.Valid() && slot !in free)
      modifies this, slot, free
      ensures Valid() && next.Valid() && next !in free
      ensures slot != null && old(slot.open) ==> r.Crashed? && next == slot && free == old(free)
      ensures slot == null || !old(slot.open) ==>
                && (r.Crashed? <==> size > CHUNK_SIZE) && !r.Null?
                && (r.Buffer? ==>
                      && fresh(r.buffer) && next.open
                      && r.buffer.owner == next && r.buffer.allocSize == size && r.buffer.writeSize == 0
                      && r.buffer.offset == next.usedSize && next.usedSize + size <= CHUNK_SIZE)
                && (r.Buffer? ==>
                      if slot != null && size <= CHUNK_SIZE - old(slot.usedSize)
                      then next == slot && next.usedSize == old(slot.usedSize) && free == old(free)
                      else next != slot && next.usedSize == 0 &&
                           (if old(free) == [] then fresh(next) && fresh(next.buffer) && free == []
                            else next == old(free)[|old(free)| - 1] && free == old(free)[..|old(free)| - 1]))
    {
      if slot == null {
        next := Pop();
        next.Reset();
      } else {
        next := slot;
      }
      if next.open {
        return next, Crashed;
      }
      if next.FreeSize() < size {
        next := Pop();
        next.Reset();
      }
      r := next.Open(size);
    }
  }

  method WriteHeader(a: array<byte>, at: nat, id: nat, size: nat)
    requires at + Framing.HEADER_SIZE <= a.Length && id < U16_LIMIT && size < U16_LIMIT
    modifies a
    ensures a[at..at + Framing.HEADER_SIZE] == U16(id) + U16(size)
    ensures a[..at] == old(a[..at]) && a[at + Framing.HEADER_SIZE..] == old(a[at + Framing.HEADER_SIZE..])
  {
    a[at], a[at + 1] := id % 256, id / 256;
    a[at + 2], a[at + 3] := size % 256, size / 256;
  }

  lemma HeaderMakesPacket(a: seq<byte>, at: nat, id: nat, size: nat)
    requires Framing.HEADER_SIZE <= size < U16_LIMIT && id < U16_LIMIT && at + size <= |a|
    requires a[at..at + Framing.HEADER_SIZE] == U16(id) + U16(size)
    ensures Framing.IsPacket(a[at..at + size])
  {
    var p, header := a[at..at + size], a[at..at + Framing.HEADER_SIZE];
    assert p[2] == header[2] && p[3] == header[3];
  }

  /** Overrun: the header, and then the payload, would be written past the end of the buffer. */
  datatype Made = Overrun | Ready(buffer: SendBuffer)

  /** BS_PacketHandler::MakeSendBuffer: a closed buffer whose header is written and whose payload is still free. The
      test before the header is not in the source, which has no defined behaviour from there. */
  method MakeSendBuffer(manager: SendBufferManager, slot: SendBufferChunk?, dataSize: nat, id: nat)
    returns (next: SendBufferChunk, made: Made)
    requires manager.Valid() && (slot != null ==> slot.Valid() && slot !in manager.free && !slot.open)
    requires dataSize < U16_LIMIT && id < U16_LIMIT
    modifies manager, slot, manager.free, if slot == null then {} else {slot.buffer},
             set c | c in manager.free :: c.buffer
    ensures manager.Valid() && next.Valid() && next !in manager.free
    ensures next == slot || next in old(manager.free) || fresh(next.buffer)
    ensures made.Overrun? <==> dataSize > 65531
    ensures made.Ready? ==>
              var buffer, size := made.buffer, Framing.HEADER_SIZE + dataSize;
              && !next.open && buffer.owner == next && buffer.writeSize == buffer.allocSize == size
              && buffer.offset + size == next.usedSize
              && next.buffer[buffer.offset..buffer.offset + Framing.HEADER_SIZE] == U16(id) + U16(size)
              && Framing.IsPacket(next.buffer[..][buffer.offset..next.usedSize])
              && (next == slot ==> buffer.offset == old(slot.usedSize)
                                   && next.buffer[..buffer.offset] == old(slot.buffer[..slot.usedSize]))
  {
    hide Framing.IsPacket, U16;
    var packetSize := Framing.PacketSize(dataSize);
    var r;
    next, r := manager.Open(slot, packetSize);
    var buffer := r.buffer;
    if packetSize < Framing.HEADER_SIZE {
      return next, Overrun;
    }
    assert packetSize == dataSize + Framing.HEADER_SIZE;
    WriteHeader(next.buffer, buffer.offset, id, packetSize);
    HeaderMakesPacket(next.buffer[..], buffer.offset, id, packetSize);
    var ok := buffer.Close(packetSize);
    made := Ready(buffer);
  }
}
