/** The value of one send-buffer chunk and what each operation does to it. */
module Chunks {
  import opened Bytes

  const CHUNK_SIZE := 0xFFFF

  datatype Chunk = Chunk(bytes: seq<byte>, open: bool, used: nat)
  {
    ghost predicate Valid() { |bytes| == CHUNK_SIZE && used <= CHUNK_SIZE }

    function FreeSize(): int { CHUNK_SIZE - used }

    function Reset(): Chunk { this.(open := false, used := 0) }

    /** The outcome of Open: an assertion that stops the process, a null reference, or room at used. */
    function Open(size: nat): OpenOutcome
    {
      if size > CHUNK_SIZE || open then Crash
      else if size > FreeSize() then NoRoom
      else Opened(this.(open := true))
    }

    /** The outcome of SendBuffer::Close on a buffer of allocSize bytes: CloseCrash when an assertion fails. */
    function Close(allocSize: nat, writeSize: nat): CloseOutcome
    {
      if allocSize < writeSize || !open then CloseCrash
      else Closed(this.(open := false, used := used + writeSize))
    }

    function Write(at: nat, data: seq<byte>): Chunk
      requires at + |data| <= |bytes|
    {
      this.(bytes := bytes[..at] + data + bytes[at + |data|..])
    }

    function Read(at: nat, n: nat): seq<byte>
      requires at + n <= |bytes|
    {
      bytes[at..at + n]
    }
  }

  datatype OpenOutcome = Crash | NoRoom | Opened(chunk: Chunk)
  datatype CloseOutcome = CloseCrash | Closed(chunk: Chunk)

  function NewChunk(): Chunk { Chunk(seq(CHUNK_SIZE, _ => 0), false, 0) }

  /** A write changes the bytes it covers and no others. */
  lemma WriteIsLocal(c: Chunk, at: nat, data: seq<byte>, other: nat, n: nat)
    requires at + |data| <= |c.bytes| && other + n <= |c.bytes|
    ensures |c.Write(at, data).bytes| == |c.bytes|
    ensures other + n <= at || at + |data| <= other ==> c.Write(at, data).Read(other, n) == c.Read(other, n)
    ensures c.Write(at, data).Read(at, |data|) == data
  {
    var w := c.Write(at, data).bytes;
    assert forall k :: 0 <= k < |c.bytes| && !(at <= k < at + |data|) ==> w[k] == c.bytes[k];
  }
}
