/** The receive path as values: the cursors of RecvBuffer, the step of ReciveMessage, and what holds over every run. */
module Receiving {
  import opened Bytes
  import opened Framing

  /** The cursors of a RecvBuffer and the bytes between them. bufferSize is the field that decides when Clean compacts:
      0 as the constructor leaves it, 0x10000 as its argument suggests. */
  datatype Window = Window(capacity: nat, bufferSize: nat, readPos: nat, unread: seq<byte>)
  {
    predicate Valid() { WritePos() <= capacity }
    function WritePos(): nat { readPos + |unread| }
    function FreeSize(): int { capacity - WritePos() }

    predicate Compacts() { unread != [] && FreeSize() < bufferSize }

    function Clean(): Window
    {
      if unread == [] || Compacts() then this.(readPos := 0) else this
    }
  }

  const BUFFER_COUNT := 10
  const SESSION_BUFFER := 0x1_0000

  function Fresh(size: nat, bufferSize: nat): Window
  {
    Window(size * BUFFER_COUNT, bufferSize, 0, [])
  }

  /** A session as ReciveMessage sees it. handled: the packets given to HandlePacket so far. */
  datatype Receiver = Receiver(window: Window, handled: seq<seq<byte>>, connected: bool)

  function Disconnected(r: Receiver): Receiver
  {
    r.(window := r.window.Clean(), connected := false)
  }

  predicate CanReceive(r: Receiver, chunk: seq<byte>)
  {
    r.connected && |chunk| <= r.window.FreeSize() && !Frame(r.window.unread + chunk).stalled
  }

  /** ReciveMessage when recv delivers chunk; an empty chunk is recv returning zero or an error. */
  function Receive(r: Receiver, chunk: seq<byte>): Receiver
  {
    if chunk == [] then Disconnected(r)
    else
      var data := r.window.unread + chunk;
      var framed := Frame(data);
      var useLen := |data| - |framed.rest|;
      var read := Receiver(r.window.(readPos := r.window.readPos + useLen, unread := framed.rest),
                           r.handled + framed.packets, r.connected);
      if useLen == 0 then Disconnected(read) else read.(window := read.window.Clean())
  }

  ghost predicate CanReceiveAll(r: Receiver, chunks: seq<seq<byte>>)
    decreases |chunks|
  {
    chunks == [] || (CanReceive(r, chunks[0]) && CanReceiveAll(Receive(r, chunks[0]), chunks[1..]))
  }

  function ReceiveAll(r: Receiver, chunks: seq<seq<byte>>): Receiver
    decreases |chunks|
  {
    if chunks == [] then r else ReceiveAll(Receive(r, chunks[0]), chunks[1..])
  }

  // ----- one step -----

  /** What is known of a session that has received the bytes of stream. */
  ghost predicate Follows(r: Receiver, stream: seq<byte>)
  {
    var framed := Frame(stream);
    && r.window.Valid() && !framed.stalled
    && r.handled == framed.packets
    && r.window.unread == framed.rest
  }

  lemma ReceiveFollows(r: Receiver, stream: seq<byte>, chunk: seq<byte>)
    requires Follows(r, stream) && CanReceive(r, chunk)
    ensures Follows(Receive(r, chunk), stream + chunk)
    ensures Receive(r, chunk).connected <==> chunk != [] && |Frame(stream).packets| < |Frame(stream + chunk).packets|
  {
    hide Frame;
    FrameIsIncremental(stream, chunk);
    var data := r.window.unread + chunk;
    FrameAccountsForEveryByte(data);
    if chunk == [] {
      assert stream + chunk == stream;
    } else {
      assert |Flatten(Frame(data).packets)| + |Frame(data).rest| == |data|;
      if Frame(data).rest == data {
        assert |Flatten(Frame(data).packets)| == 0;
      } else {
        assert Frame(data).packets != [];
      }
    }
  }

  lemma CleanKeepsUnread(w: Window)
    requires w.Valid()
    ensures w.Clean().Valid() && w.Clean().unread == w.unread
    ensures w.Clean().FreeSize() >= w.FreeSize()
  {
  }

  // ----- every run -----

  /** Stream refinement: however the bytes were chopped into reads, the packets handled are the greedy framing of all
      bytes received, and the bytes between the cursors are exactly its tail. */
  lemma {:induction false} ReceivedIsFramed(r: Receiver, stream: seq<byte>, chunks: seq<seq<byte>>)
    requires Follows(r, stream) && CanReceiveAll(r, chunks)
    ensures Follows(ReceiveAll(r, chunks), stream + Flatten(chunks))
    decreases |chunks|
  {
    hide Frame, Receive, Follows, CanReceive;
    if chunks == [] {
      assert stream + Flatten(chunks) == stream;
    } else {
      ReceiveFollows(r, stream, chunks[0]);
      ReceivedIsFramed(Receive(r, chunks[0]), stream + chunks[0], chunks[1..]);
      assert stream + Flatten(chunks) == stream + chunks[0] + Flatten(chunks[1..]);
    }
  }

  /** Every read is made while connected and delivers no more than recv was given room for. */
  ghost predicate Fits(r: Receiver, chunks: seq<seq<byte>>)
    decreases |chunks|
  {
    chunks == [] ||
    (r.connected && |chunks[0]| <= r.window.FreeSize() && Fits(Receive(r, chunks[0]), chunks[1..]))
  }

  /** When the whole stream has no zero size, no read of it meets one, however it is cut. */
  lemma {:induction false} FittingReadsAreReceived(r: Receiver, stream: seq<byte>, chunks: seq<seq<byte>>)
    requires Follows(r, stream) && Fits(r, chunks) && !Frame(stream + Flatten(chunks)).stalled
    ensures CanReceiveAll(r, chunks)
    decreases |chunks|
  {
    hide Frame, Receive;
    if chunks != [] {
      var next, later := stream + chunks[0], Flatten(chunks[1..]);
      assert stream + Flatten(chunks) == next + later;
      if Frame(next).stalled { StallIsPermanent(next, later); }
      FrameIsIncremental(stream, chunks[0]);
      ReceiveFollows(r, stream, chunks[0]);
      FittingReadsAreReceived(Receive(r, chunks[0]), next, chunks[1..]);
    }
  }

  function NewSession(size: nat, bufferSize: nat): Receiver
  {
    Receiver(Fresh(size, bufferSize), [], true)
  }

  lemma NewSessionFollows(size: nat, bufferSize: nat)
    ensures Follows(NewSession(size, bufferSize), [])
  {
  }

  /** Two choppings of the same bytes hand over the same packets and leave the same tail, whatever their buffers are. */
  lemma ChoppingDoesNotMatter(size: nat, bufferSize: nat, size': nat, bufferSize': nat,
                              xs: seq<seq<byte>>, ys: seq<seq<byte>>)
    requires Flatten(xs) == Flatten(ys)
    requires CanReceiveAll(NewSession(size, bufferSize), xs) && CanReceiveAll(NewSession(size', bufferSize'), ys)
    ensures var a, b := ReceiveAll(NewSession(size, bufferSize), xs), ReceiveAll(NewSession(size', bufferSize'), ys);
            a.handled == b.handled == Frame(Flatten(xs)).packets && a.window.unread == b.window.unread
  {
    NewSessionFollows(size, bufferSize);
    NewSessionFollows(size', bufferSize');
    ReceivedIsFramed(NewSession(size, bufferSize), [], xs);
    ReceivedIsFramed(NewSession(size', bufferSize'), [], ys);
    assert [] + Flatten(xs) == Flatten(xs) == [] + Flatten(ys);
  }

  /** The messages of a writer arrive unchanged through any chopping. */
  lemma WrittenMessagesArrive(size: nat, bufferSize: nat, ms: seq<Message>, chunks: seq<seq<byte>>)
    requires forall m :: m in ms ==> Sendable(m)
    requires Flatten(chunks) == Flatten(Encode(ms)) && Fits(NewSession(size, bufferSize), chunks)
    ensures var r := ReceiveAll(NewSession(size, bufferSize), chunks);
            && (forall p :: p in r.handled ==> IsPacket(p)) && Decode(r.handled) == ms && r.window.unread == []
  {
    hide Frame, Receive, ReceiveAll, CanReceiveAll, Fits;
    assert [] + Flatten(chunks) == Flatten(chunks);
    WriterThenFramer(ms);
    NewSessionFollows(size, bufferSize);
    FittingReadsAreReceived(NewSession(size, bufferSize), [], chunks);
    ReceivedIsFramed(NewSession(size, bufferSize), [], chunks);
  }

  /** Each read delivers bytes and completes a packet. */
  ghost predicate EveryReadCompletes(stream: seq<byte>, chunks: seq<seq<byte>>)
    decreases |chunks|
  {
    chunks == [] ||
    (chunks[0] != [] && |Frame(stream).packets| < |Frame(stream + chunks[0]).packets|
     && EveryReadCompletes(stream + chunks[0], chunks[1..]))
  }

  /** Exactly then the session is still connected: a read that completes no packet disconnects it. */
  lemma {:induction false} ConnectedExactlyWhenEveryReadCompletes(r: Receiver, stream: seq<byte>,
                                                                  chunks: seq<seq<byte>>)
    requires Follows(r, stream) && r.connected && CanReceiveAll(r, chunks)
    ensures ReceiveAll(r, chunks).connected <==> EveryReadCompletes(stream, chunks)
    decreases |chunks|
  {
    hide Frame, Receive, Follows, CanReceive;
    if chunks != [] {
      ReceiveFollows(r, stream, chunks[0]);
      var r' := Receive(r, chunks[0]);
      if r'.connected {
        ConnectedExactlyWhenEveryReadCompletes(r', stream + chunks[0], chunks[1..]);
      } else {
        assert chunks[1..] == [] by { NothingAfterDisconnect(r', chunks[1..]); }
      }
    }
  }

  lemma NothingAfterDisconnect(r: Receiver, chunks: seq<seq<byte>>)
    requires CanReceiveAll(r, chunks)
    ensures r.connected || chunks == []
  {
  }

  // ----- room for the next read -----

  /** After Clean there is room unless unread bytes end at the capacity and nothing asks for compaction. */
  lemma RoomAfterClean(w: Window)
    requires w.Valid() && |w.unread| < w.capacity
    ensures w.Clean().FreeSize() > 0 <==> w.bufferSize >= 1 || w.unread == [] || w.FreeSize() > 0
  {
  }

  /** With the intended threshold the compaction copies between disjoint ranges and restores room for a full read. */
  lemma CompactionAsIntended(w: Window)
    requires w.Valid() && w.capacity == SESSION_BUFFER * BUFFER_COUNT && w.bufferSize == SESSION_BUFFER
    requires |w.unread| < 0xFFFF
    ensures w.Compacts() ==> |w.unread| <= w.readPos
    ensures w.Clean().FreeSize() >= w.bufferSize
  {
  }

  /** Clean copies a tail of n bytes in w. */
  predicate IsCompaction(w: Window, capacity: nat, bufferSize: nat, n: nat)
  {
    w.Valid() && w.capacity == capacity && w.bufferSize == bufferSize && |w.unread| == n && w.Compacts()
  }

  /** For which thresholds compaction never copies between overlapping ranges: a tail of n bytes must fit twice in what
      the threshold leaves of the buffer. */
  lemma CopyIsDisjointExactly(capacity: nat, bufferSize: nat, n: nat)
    requires 0 < n <= capacity && bufferSize >= 1
    ensures (forall w :: IsCompaction(w, capacity, bufferSize, n) ==> n <= w.readPos) <==>
            2 * n <= capacity - bufferSize + 1
  {
    if 2 * n > capacity - bufferSize + 1 {
      var tail: seq<byte> := seq(n, _ => 0);
      var least := capacity - bufferSize - n + 1;
      var w := Window(capacity, bufferSize, if least < 0 then 0 else least, tail);
      assert IsCompaction(w, capacity, bufferSize, n) && w.readPos < n;
    }
  }

  ghost predicate KeepsShape(r: Receiver, size: nat, bufferSize: nat)
  {
    r.window.capacity == size * BUFFER_COUNT && r.window.bufferSize == bufferSize
  }

  lemma {:induction false} ShapeStays(r: Receiver, chunks: seq<seq<byte>>, size: nat, bufferSize: nat)
    requires KeepsShape(r, size, bufferSize)
    ensures KeepsShape(ReceiveAll(r, chunks), size, bufferSize)
    decreases |chunks|
  {
    if chunks != [] {
      ShapeStays(Receive(r, chunks[0]), chunks[1..], size, bufferSize);
    }
  }

  /** The next recv can take at least one byte. */
  predicate HasRoom(r: Receiver) { r.window.FreeSize() > 0 }

  lemma ReceiveLeavesRoom(r: Receiver, stream: seq<byte>, chunk: seq<byte>)
    requires Follows(r, stream) && CanReceive(r, chunk) && r.window.bufferSize >= 1 && r.window.capacity >= 0xFFFF
    ensures HasRoom(Receive(r, chunk))
  {
    FrameAccountsForEveryByte(stream);
    FrameAccountsForEveryByte(r.window.unread + chunk);
    FrameIsIncremental(stream, chunk);
  }

  /** With any positive threshold no run ever starves recv of space. */
  lemma {:induction false} NeverStarves(r: Receiver, stream: seq<byte>, chunks: seq<seq<byte>>)
    requires Follows(r, stream) && CanReceiveAll(r, chunks) && HasRoom(r)
    requires r.window.bufferSize >= 1 && r.window.capacity >= 0xFFFF
    ensures HasRoom(ReceiveAll(r, chunks))
    decreases |chunks|
  {
    hide Frame, Follows, CanReceive, HasRoom;
    if chunks != [] {
      ReceiveFollows(r, stream, chunks[0]);
      ReceiveLeavesRoom(r, stream, chunks[0]);
      NeverStarves(Receive(r, chunks[0]), stream + chunks[0], chunks[1..]);
    }
  }

  /** The bytes that have reached the buffer since it was last empty, when so many had before. */
  function SinceEmpty(stream: seq<byte>, before: nat, chunks: seq<seq<byte>>): nat
    decreases |chunks|
  {
    if chunks == [] then before
    else
      var next := stream + chunks[0];
      SinceEmpty(next, if Frame(next).rest == [] then 0 else before + |chunks[0]|, chunks[1..])
  }

  lemma {:induction false} NothingIsRewound(r: Receiver, stream: seq<byte>, chunks: seq<seq<byte>>)
    requires Follows(r, stream) && CanReceiveAll(r, chunks) && r.window.bufferSize == 0
    ensures ReceiveAll(r, chunks).window.WritePos() == SinceEmpty(stream, r.window.WritePos(), chunks)
    decreases |chunks|
  {
    hide Frame;
    if chunks != [] {
      FrameIsIncremental(stream, chunks[0]);
      ReceiveFollows(r, stream, chunks[0]);
      NothingIsRewound(Receive(r, chunks[0]), stream + chunks[0], chunks[1..]);
    }
  }

  /** As written (bufferSize left at 0) recv has room after a run exactly when less than the capacity has arrived since
      a read last left nothing unread. */
  lemma RoomAsWritten(size: nat, chunks: seq<seq<byte>>)
    requires CanReceiveAll(NewSession(size, 0), chunks)
    ensures HasRoom(ReceiveAll(NewSession(size, 0), chunks)) <==> SinceEmpty([], 0, chunks) < size * BUFFER_COUNT
  {
    NewSessionFollows(size, 0);
    NothingIsRewound(NewSession(size, 0), [], chunks);
    ShapeStays(NewSession(size, 0), chunks, size, 0);
  }

  /** The largest packet, and as many copies of it as fit in the buffer of a session, followed by the start of one
      more. */
  function LargestPacket(): seq<byte> { MakePacket(0, seq(65531, _ => 0)) }

  function Copies(p: seq<byte>, n: nat): seq<seq<byte>>
  {
    if n == 0 then [] else [p] + Copies(p, n - 1)
  }

  lemma {:induction false} CopiesHaveLength(p: seq<byte>, n: nat)
    ensures |Flatten(Copies(p, n))| == n * |p|
    ensures forall q :: q in Copies(p, n) ==> q == p
    ensures |Copies(p, n)| == n
  {
    if n != 0 {
      CopiesHaveLength(p, n - 1);
      assert Copies(p, n)[1..] == Copies(p, n - 1);
    }
  }

  function FillingRead(): seq<byte> { Flatten(Copies(LargestPacket(), 10)) + LargestPacket()[..10] }

  /** As written (bufferSize left at 0) a well-formed stream can fill the buffer to the last byte with a packet cut off
      at the end. Nothing is compacted, so the next recv has no room and the session is dropped. */
  lemma StarvesAsWritten()
    ensures var r := NewSession(SESSION_BUFFER, 0);
            var r' := Receive(r, FillingRead());
            && CanReceive(r, FillingRead())
            && r'.connected && |r'.handled| == 10 && r'.window.unread != [] && !HasRoom(r')
            && (forall chunk :: CanReceive(r', chunk) ==> !Receive(r', chunk).connected)
  {
    hide Frame, Flatten;
    var p := LargestPacket();
    MadePacketReadsBack(0, seq(65531, _ => 0));
    CopiesHaveLength(p, 10);
    var tail := p[..10];
    assert tail[2] == p[2] && tail[3] == p[3];
    FrameOfPackets(Copies(p, 10), tail);
    assert [] + FillingRead() == FillingRead();
  }
}
