/** Packets made and sent: what Broadcast and a Send of a fresh packet put on the wire. */
module Broadcasts {
  import opened Bytes
  import opened Codec
  import opened Framing
  import opened Packets
  import opened PacketWriters
  import opened SendBuffers
  import opened Sessions

  /** A buffer alone is its bytes. */
  lemma OneBuffer(b: SendBuffer)
    requires Readable(b)
    ensures BytesOfAll([b]) == BytesOf(b)
  {
    assert [b][1..] == [];
    assert BytesOfAll([]) == [];
  }

  /** A packet made from a list and sent on a connected session with nothing queued puts exactly that packet on the
      wire, when the socket takes it whole. */
  method SendMoves(session: Session, manager: SendBufferManager, slot: SendBufferChunk?, moves: seq<MoveRec>,
                   taken: nat)
    returns (next: SendBufferChunk, ok: bool)
    requires session.Valid() && session.connected && session.sendBuffers == []
    requires manager.Valid() && (slot != null ==> slot.Valid() && slot !in manager.free && !slot.open)
    requires forall m :: m in moves ==> MoveOk(m)
    modifies session, manager, slot, manager.free, if slot == null then {} else {slot.buffer},
             set c | c in manager.free :: c.buffer
    ensures session.Valid() && session.sendBuffers == [] && manager.Valid() && next.Valid() && next !in manager.free
    ensures |moves| <= 2730 ==> |Flatten(MoveListFields(moves))| <= 65531
    ensures |moves| <= 2730 ==>
              var p := MakePacket(3, Flatten(MoveListFields(moves)));
              && (ok <==> taken > 0)
              && session.wire == old(session.wire) + (if taken <= |p| then p[..taken] else p)
  {
    hide IsPacket, PacketId, GivesMoves, MoveListFields, MoveOk, MakePacket, Flatten, SendBufferManager.Valid;
    var made;
    next, made := MakeMoveList(manager, slot, moves);
    var buffer := made.buffer;
    OneBuffer(buffer);
    assert [] + [buffer] == [buffer];
    PacketIsNotEmpty(moves);
    ok := session.Send(buffer, taken);
  }

  lemma PacketIsNotEmpty(moves: seq<MoveRec>)
    requires forall m :: m in moves ==> MoveOk(m)
    ensures |moves| <= 2730 ==>
              |Flatten(MoveListFields(moves))| <= 65531 && MakePacket(3, Flatten(MoveListFields(moves))) != []
  {
    hide MoveListFields, MoveOk, Flatten;
    MoveListBytes(moves);
  }

  /** Writing the payload leaves the header in front of it. */
  lemma HeaderThenPayload(before: seq<byte>, now: seq<byte>, at: nat, payload: seq<byte>)
    requires at + HEADER_SIZE + |payload| <= |before| == |now|
    requires now[..at + HEADER_SIZE] == before[..at + HEADER_SIZE]
    requires now[at + HEADER_SIZE..at + HEADER_SIZE + |payload|] == payload
    ensures now[at..at + HEADER_SIZE + |payload|] == before[at..at + HEADER_SIZE] + payload
  {
    assert now[at..at + HEADER_SIZE] == now[..at + HEADER_SIZE][at..] == before[at..at + HEADER_SIZE];
  }

  /** A buffer with a payload of the caller's own bytes, written behind the header after the buffer was closed. */
  method MakePayload(manager: SendBufferManager, slot: SendBufferChunk?, id: nat, payload: seq<byte>)
    returns (next: SendBufferChunk, made: Made)
    requires manager.Valid() && (slot != null ==> slot.Valid() && slot !in manager.free && !slot.open)
    requires id < U16_LIMIT && |payload| < U16_LIMIT
    modifies manager, slot, manager.free, if slot == null then {} else {slot.buffer},
             set c | c in manager.free :: c.buffer
    ensures manager.Valid() && next.Valid() && next !in manager.free
    ensures made.Overrun? <==> |payload| > 65531
    ensures made.Ready? ==> Readable(made.buffer) && BytesOf(made.buffer) == MakePacket(id, payload)
  {
    hide IsPacket, U16, SendBufferManager.Valid;
    next, made := MakeSendBuffer(manager, slot, |payload|, id);
    if made.Ready? {
      var buffer := made.buffer;
      ghost var before := next.buffer[..];
      PutAt(next.buffer, buffer.offset + HEADER_SIZE, payload);
      HeaderThenPayload(before, next.buffer[..], buffer.offset, payload);
    }
  }

  /** Made and sent on a connected session with nothing queued, the payload is on the wire as one packet. Above 65531
      bytes the buffer is overrun and nothing is sent. */
  method SendPacket(session: Session, manager: SendBufferManager, slot: SendBufferChunk?, id: nat, payload: seq<byte>,
                    taken: nat)
    returns (next: SendBufferChunk, ok: bool)
    requires session.Valid() && session.connected && session.sendBuffers == []
    requires manager.Valid() && (slot != null ==> slot.Valid() && slot !in manager.free && !slot.open)
    requires id < U16_LIMIT && |payload| < U16_LIMIT
    modifies session, manager, slot, manager.free, if slot == null then {} else {slot.buffer},
             set c | c in manager.free :: c.buffer
    ensures session.Valid() && session.sendBuffers == [] && manager.Valid() && next.Valid() && next !in manager.free
    ensures |payload| > 65531 ==> !ok && session.wire == old(session.wire)
    ensures |payload| <= 65531 ==>
              var p := MakePacket(id, payload);
              && (ok <==> taken > 0)
              && session.wire == old(session.wire) + (if taken <= |p| then p[..taken] else p)
  {
    hide U16, BytesOf, BytesOfAll, SendBufferManager.Valid;
    var made;
    next, made := MakePayload(manager, slot, id, payload);
    if made.Overrun? {
      return next, false;
    }
    assert [] + [made.buffer] == [made.buffer];
    OneBuffer(made.buffer);
    ok := session.Send(made.buffer, taken);
  }

  /** What a session hands to sendmsg when buffer is sent: everything queued and then buffer. */
  ghost function Offered(s: Session, buffer: SendBuffer): seq<byte>
    requires s.Valid() && Readable(buffer)
    reads s, s.recvBuffer, s.sendBuffers, buffer, buffer.owner.buffer, set b | b in s.sendBuffers :: b.owner.buffer
  {
    BytesOfAll(s.sendBuffers + [buffer])
  }

  /** The wire of a session that was offered some bytes and took some of them. */
  function WireAfter(connected: bool, wire: seq<byte>, offered: seq<byte>, taken: nat): seq<byte>
  {
    if !connected then wire else wire + (if taken <= |offered| then offered[..taken] else offered)
  }

  /** Every session of the room is sent the buffer, behind what it has queued; sessions do not disturb each other.
      taken: what each socket accepts. */
  method Broadcast(sessions: seq<Session>, buffer: SendBuffer, taken: seq<nat>)
    requires |taken| == |sessions| && Readable(buffer)
    requires forall i :: 0 <= i < |sessions| ==> sessions[i].Valid()
    requires forall i, j :: 0 <= i < j < |sessions| ==> sessions[i] != sessions[j]
    modifies sessions
    ensures forall i :: 0 <= i < |sessions| ==>
              var s := sessions[i];
              s.Valid() && s.connected == old(s.connected) && SentBuffer(s, buffer, taken[i])
  {
    hide WireAfter, Offered, BytesOfAll, Session.Valid;
    for k := 0 to |sessions|
      invariant forall i :: 0 <= i < |sessions| ==> sessions[i].Valid()
      invariant forall i :: 0 <= i < |sessions| ==> sessions[i].connected == old(sessions[i].connected)
      invariant forall i :: k <= i < |sessions| ==> unchanged(sessions[i])
      invariant forall i :: 0 <= i < k ==> SentBuffer(sessions[i], buffer, taken[i])
    {
      SendOne(sessions[k], buffer, taken[k]);
    }
  }

  twostate predicate SentBuffer(s: Session, buffer: SendBuffer, taken: nat)
    requires old(s.Valid()) && old(Readable(buffer))
    reads s
  {
    && s.sendBuffers == (if s.connected then [] else old(s.sendBuffers))
    && s.wire == WireAfter(s.connected, old(s.wire), old(Offered(s, buffer)), taken)
  }

  method SendOne(s: Session, buffer: SendBuffer, taken: nat)
    requires s.Valid() && Readable(buffer)
    modifies s
    ensures s.Valid() && s.connected == old(s.connected) && SentBuffer(s, buffer, taken)
  {
    var _ := s.Send(buffer, taken);
  }
}
