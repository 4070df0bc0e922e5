/** From the allocator of one server to the framing loop of a peer that runs the same code. */
module EndToEnd {
  import opened Bytes
  import Delivery
  import Framing
  import Pool = SendBufferPool
  import opened Receiving
  import Relays

  /** Whatever the threads do with the pool and however the stream is cut, a peer handles exactly the packets that
      were pushed to its session and have left the queue, in the order pushed, with the bytes they had when pushed. */
  lemma PeerHandlesWhatWasPushed(n: nat, m: nat, run: seq<Delivery.Event>, sid: nat, cuts: seq<seq<byte>>,
                                 bufferSize: nat)
    requires Delivery.CanFollow(Delivery.Boot(n, m), run) && sid < m
    requires sid < |Delivery.Following(Delivery.Boot(n, m), run).links|
    requires var l := Delivery.Following(Delivery.Boot(n, m), run).links[sid];
             l.lost == 0 && Flatten(cuts) == l.wire
    requires Fits(NewSession(SESSION_BUFFER, bufferSize), cuts)
    ensures var l := Delivery.Following(Delivery.Boot(n, m), run).links[sid];
            var pushed := Delivery.Pushed(Pool.Start(n), run, sid, true);
            var peer := ReceiveAll(NewSession(SESSION_BUFFER, bufferSize), cuts);
            && |l.queue| <= |pushed|
            && peer.handled == pushed[..|pushed| - |l.queue|] && peer.window.unread == []
  {
    hide *;
    Delivery.DeliveredInOrder(n, m, run, sid);
    ReadsAreFramed(cuts, bufferSize);
  }

  lemma ReadsAreFramed(cuts: seq<seq<byte>>, bufferSize: nat)
    requires Fits(NewSession(SESSION_BUFFER, bufferSize), cuts) && !Framing.Frame(Flatten(cuts)).stalled
    ensures var peer := ReceiveAll(NewSession(SESSION_BUFFER, bufferSize), cuts);
            && peer.handled == Framing.Frame(Flatten(cuts)).packets
            && peer.window.unread == Framing.Frame(Flatten(cuts)).rest
  {
    hide ReceiveAll, CanReceiveAll, Fits, Framing.Frame, Flatten;
    assert [] + Flatten(cuts) == Flatten(cuts);
    NewSessionFollows(SESSION_BUFFER, bufferSize);
    FittingReadsAreReceived(NewSession(SESSION_BUFFER, bufferSize), [], cuts);
    ReceivedIsFramed(NewSession(SESSION_BUFFER, bufferSize), [], cuts);
  }

  /** From the outside: a client whose chat has 65523 to 65526 bytes of text sends a well-formed packet, and the request
      its relay makes of the allocator ends in the overrun, in any reachable state of any number of threads. */
  lemma LongChatOverrunsThePool(fd: nat, kind: byte, text: seq<byte>, after: seq<byte>, n: nat, s: Pool.Pool, t: nat)
    returns (own: seq<Pool.Action>)
    requires Bytes.IsI32(fd) && 65523 <= |text| <= 65526 && U16_LIMIT <= |after|
    requires Pool.Reachable(n, s) && !s.overrun && Pool.Free(s, t)
    ensures var p := Framing.MakePacket(4, [kind] + U32(|text|) + text);
            Relays.WellFormed(p) && Relays.Relay(fd, p, after) == Relays.Overrun
    ensures var run := [Pool.Begin(t, 9 + |text|, 4)] + own;
            Pool.CanRun(s, run) && Pool.After(s, run).overrun
  {
    hide Pool.CanRun, Pool.After, Pool.Reachable, Relays.Relay, Relays.WellFormed, Framing.MakePacket;
    assert [kind] + U32(|text|) + text + [] == [kind] + U32(|text|) + text;
    Relays.ChatIsRelayed(fd, kind, text, [], after);
    var ref;
    own, ref := Pool.EveryRequestFinishes(n, s, t, 9 + |text|, 4);
  }
}
