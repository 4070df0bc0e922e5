/** RecvBuffer and Session as classes, tied to the value-level receive path and to the bytes of the send buffers. */
module Sessions {
  import opened Bytes
  import Framing
  import opened Receiving
  import opened SendBuffers

  class RecvBuffer {
    const capacity: nat
    const bufferSize: nat
    const buffer: array<byte>
    var readPos: nat
    var writePos: nat

    ghost predicate Valid()
      reads this
    {
      buffer.Length == capacity && readPos <= writePos <= capacity
    }

    ghost function Value(): Window
      requires Valid()
      reads this, buffer
    {
      Window(capacity, bufferSize, readPos, buffer[readPos..writePos])
    }

    /** bufferSize is 0 in the source, whatever size is. */
    constructor (size: nat, bufferSize: nat)
      ensures Valid() && Value() == Fresh(size, bufferSize) && fresh(buffer)
    {
      capacity := size * BUFFER_COUNT;
      this.bufferSize := bufferSize;
      buffer := new byte[size * BUFFER_COUNT](_ => 0);
      readPos, writePos := 0, 0;
    }

    function DataSize(): (n: nat)
      requires Valid()
      reads this, buffer
      ensures n == |Value().unread|
    {
      writePos - readPos
    }

    function FreeSize(): (n: nat)
      requires Valid()
      reads this, buffer
      ensures n == Value().FreeSize()
    {
      capacity - writePos
    }

    method Clean()
      requires Valid()
      modifies this, buffer
      ensures Valid() && Value() == old(Value()).Clean()
    {
      var dataSize := DataSize();
      if dataSize == 0 {
        readPos, writePos := 0, 0;
      } else if FreeSize() < bufferSize {
        CopyDown(buffer, readPos, dataSize);
        readPos, writePos := 0, dataSize;
      }
    }

    method OnRead(numOfBytes: nat) returns (ok: bool)
      requires Valid()
      modifies this
      ensures Valid() && ok == (numOfBytes <= |old(Value()).unread|)
      ensures var was := old(Value());
              Value() == if ok then was.(readPos := was.readPos + numOfBytes, unread := was.unread[numOfBytes..])
                         else was
    {
      if numOfBytes > DataSize() {
        return false;
      }
      readPos := readPos + numOfBytes;
      assert buffer[readPos..writePos] == old(buffer[readPos..writePos])[numOfBytes..];
      return true;
    }

    /** recv into the free space, then OnWrite with its result. */
    method TakeIn(incoming: seq<byte>) returns (ok: bool)
      requires Valid() && |incoming| <= Value().FreeSize()
      modifies this, buffer
      ensures Valid() && ok && Value() == old(Value()).(unread := old(Value()).unread + incoming)
    {
      ghost var before := buffer[..];
      PutAt(buffer, writePos, incoming);
      ok := OnWrite(|incoming|);
      assert buffer[readPos..writePos] == before[readPos..old(writePos)] + incoming;
    }

    /** Accounts for the bytes recv has put at the write cursor. */
    method OnWrite(numOfBytes: nat) returns (ok: bool)
      requires Valid()
      modifies this
      ensures Valid() && ok == (old(writePos) + numOfBytes <= capacity)
      ensures var was := old(Value());
              Value() == if ok then was.(unread := buffer[old(readPos)..old(writePos) + numOfBytes]) else was
    {
      if numOfBytes > FreeSize() {
        return false;
      }
      writePos := writePos + numOfBytes;
      return true;
    }
  }

  /** memcpy from the read cursor to the front, byte by byte. */
  method CopyDown(a: array<byte>, from: nat, n: nat)
    requires from + n <= a.Length
    modifies a
    ensures a[..n] == old(a[from..from + n])
  {
    for i := 0 to n
      invariant forall k :: 0 <= k < i ==> a[k] == old(a[from + k])
      invariant forall k :: from + i <= k < a.Length ==> a[k] == old(a[k])
    {
      a[i] := a[from + i];
    }
  }

  // ----- the bytes behind a queue -----

  ghost predicate Readable(b: SendBuffer)
    reads b
  {
    b.offset + b.writeSize <= b.owner.buffer.Length
  }

  /** The bytes a buffer holds now. */
  ghost function BytesOf(b: SendBuffer): seq<byte>
    requires Readable(b)
    reads b, b.owner.buffer
  {
    b.owner.buffer[b.offset..b.offset + b.writeSize]
  }

  ghost function BytesOfAll(bs: seq<SendBuffer>): seq<byte>
    requires forall b :: b in bs ==> Readable(b)
    reads bs, set b | b in bs :: b.owner.buffer
  {
    if bs == [] then [] else
    assert bs[0] in bs;
    BytesOf(bs[0]) + BytesOfAll(bs[1..])
  }

  lemma {:induction false} BytesOfSnoc(bs: seq<SendBuffer>, b: SendBuffer)
    requires Readable(b) && forall x :: x in bs ==> Readable(x)
    ensures BytesOfAll(bs + [b]) == BytesOfAll(bs) + BytesOf(b)
  {
    if bs == [] {
      assert bs + [b] == [b];
    } else {
      BytesOfSnoc(bs[1..], b);
      assert (bs + [b])[1..] == bs[1..] + [b];
    }
  }

  /** The loop of Send over the queue, and the copy sendmsg makes of what it points at. */
  method Gather(queue: seq<SendBuffer>) returns (message: seq<byte>)
    requires forall b :: b in queue ==> Readable(b)
    ensures message == BytesOfAll(queue)
  {
    message := [];
    for i := 0 to |queue|
      invariant message == BytesOfAll(queue[..i])
    {
      var b := queue[i];
      assert b in queue;
      BytesOfSnoc(queue[..i], b);
      assert queue[..i + 1] == queue[..i] + [b];
      message := message + b.owner.buffer[b.offset..b.offset + b.writeSize];
    }
    assert queue[..|queue|] == queue;
  }

  // ----- the session -----

  class Session {
    const recvBuffer: RecvBuffer
    var connected: bool
    /** The packets given to HandlePacket so far, in order. */
    var handled: seq<seq<byte>>
    var sendBuffers: seq<SendBuffer>
    /** The bytes the socket has taken. */
    var wire: seq<byte>

    ghost predicate Valid()
      reads this, recvBuffer, sendBuffers
    {
      recvBuffer.Valid() && forall b :: b in sendBuffers ==> Readable(b)
    }

    ghost function Value(): Receiver
      requires Valid()
      reads this, recvBuffer, recvBuffer.buffer, sendBuffers
    {
      Receiver(recvBuffer.Value(), handled, connected)
    }

    constructor (bufferSize: nat)
      ensures Valid() && fresh(recvBuffer) && fresh(recvBuffer.buffer)
      ensures Value() == NewSession(SESSION_BUFFER, bufferSize)
      ensures sendBuffers == [] && wire == []
    {
      recvBuffer := new RecvBuffer(SESSION_BUFFER, bufferSize);
      connected, handled, sendBuffers, wire := true, [], [], [];
    }

    method Disconnect()
      requires Valid()
      modifies this, recvBuffer, recvBuffer.buffer
      ensures Valid() && Value() == Disconnected(old(Value())) && sendBuffers == [] && wire == old(wire)
    {
      recvBuffer.Clean();
      sendBuffers := [];
      connected := false;
    }

    /** incoming is what recv delivers into the free space; empty when recv returns zero or an error. */
    method ReciveMessage(incoming: seq<byte>) returns (ok: bool)
      requires Valid() && CanReceive(Value(), incoming)
      modifies this, recvBuffer, recvBuffer.buffer
      ensures Valid() && Value() == Receive(old(Value()), incoming) && ok == connected
      ensures sendBuffers == (if ok then old(sendBuffers) else []) && wire == old(wire)
    {
      hide Framing.Frame;
      ghost var before := Value();
      if |incoming| == 0 {
        Disconnect();
        return false;
      }
      var written := recvBuffer.TakeIn(incoming);
      ghost var data := before.window.unread + incoming;
      Framing.FrameAccountsForEveryByte(data);
      var dataSize := recvBuffer.DataSize();
      var processLen, packets := Framing.OnRecv(recvBuffer.buffer, recvBuffer.readPos, dataSize);
      handled := handled + packets;
      var read := recvBuffer.OnRead(processLen);
      assert read && recvBuffer.Value().unread == Framing.Frame(data).rest;
      if !read || processLen <= 0 || dataSize < processLen {
        Disconnect();
        return false;
      }
      recvBuffer.Clean();
      return true;
    }

    method PushBuffer(buffer: SendBuffer)
      requires Valid() && Readable(buffer)
      modifies this
      ensures Valid() && Value() == old(Value())
      ensures sendBuffers == old(sendBuffers) + [buffer] && wire == old(wire)
    {
      sendBuffers := sendBuffers + [buffer];
    }

    /** taken is how many of the bytes offered sendmsg accepts; zero stands for an error. */
    method Send(buffer: SendBuffer, taken: nat) returns (ok: bool)
      requires Valid() && Readable(buffer)
      modifies this
      ensures Valid() && Value() == old(Value())
      ensures !connected ==> !ok && sendBuffers == old(sendBuffers) && wire == old(wire)
      ensures connected ==>
                var offered := BytesOfAll(old(sendBuffers) + [buffer]);
                sendBuffers == [] && (ok <==> taken > 0 && offered != [])
                && wire == old(wire) + (if taken <= |offered| then offered[..taken] else offered)
    {
      if !connected {
        return false;
      }
      sendBuffers := sendBuffers + [buffer];
      var message := Gather(sendBuffers);
      var result := if taken <= |message| then taken else |message|;
      wire := wire + message[..result];
      sendBuffers := [];
      return result > 0;
    }
  }
}
