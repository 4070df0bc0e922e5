/** Packet framing: the header, the greedy cut of a byte stream into packets, and the loop of OnRecv. */
module Framing {
  import opened Bytes

  const HEADER_SIZE := 4

  /** The size field of the header in front of s (the id comes first). */
  function HeaderSize(s: seq<byte>): nat
    requires HEADER_SIZE <= |s|
  {
    ReadU16(s, 2)
  }

  /** packets: cut off the front, in order. rest: what is left. stalled: a zero size is in front of rest,
      on which the loop of OnRecv makes no progress. */
  datatype Framed = Framed(packets: seq<seq<byte>>, rest: seq<byte>, stalled: bool)

  /** No complete packet is in front of s. */
  predicate Incomplete(s: seq<byte>)
  {
    |s| < HEADER_SIZE || |s| < HeaderSize(s)
  }

  /** The reference reading of a byte stream, by recursion. */
  function Frame(s: seq<byte>): (framed: Framed)
    ensures |framed.rest| <= |s|
    decreases |s|
  {
    if Incomplete(s) then Framed([], s, false)
    else if HeaderSize(s) == 0 then Framed([], s, true)
    else
      var n := HeaderSize(s);
      var tail := Frame(s[n..]);
      Framed([s[..n]] + tail.packets, tail.rest, tail.stalled)
  }

  /** Nothing is lost or reordered, and the tail is shorter than the largest packet. */
  lemma {:induction false} FrameAccountsForEveryByte(s: seq<byte>)
    ensures Flatten(Frame(s).packets) + Frame(s).rest == s
    ensures !Frame(s).stalled ==> |Frame(s).rest| < 0xFFFF
    ensures Frame(s).packets == [] <==> Frame(s).rest == s
    decreases |s|
  {
    if !Incomplete(s) && HeaderSize(s) != 0 {
      var n := HeaderSize(s);
      var tail := Frame(s[n..]);
      FrameAccountsForEveryByte(s[n..]);
      calc {
        Flatten(Frame(s).packets) + Frame(s).rest;
        { assert ([s[..n]] + tail.packets)[1..] == tail.packets; }
        s[..n] + Flatten(tail.packets) + tail.rest;
        s[..n] + (Flatten(tail.packets) + tail.rest);
        s[..n] + s[n..];
        s;
      }
      assert |Frame(s).rest| <= |s[n..]| < |s| by {
        assert |Flatten(tail.packets)| + |tail.rest| == |s[n..]|;
      }
    }
  }

  lemma Unfold(s: seq<byte>)
    ensures Incomplete(s) ==> Frame(s) == Framed([], s, false)
    ensures !Incomplete(s) && HeaderSize(s) == 0 ==> Frame(s) == Framed([], s, true)
    ensures !Incomplete(s) && HeaderSize(s) != 0 ==>
              var n := HeaderSize(s);
              var tail := Frame(s[n..]);
              Frame(s) == Framed([s[..n]] + tail.packets, tail.rest, tail.stalled)
  {
  }

  /** Framing is incremental: bytes that arrive later continue from the tail alone. */
  lemma {:induction false} FrameIsIncremental(a: seq<byte>, b: seq<byte>)
    requires !Frame(a).stalled
    ensures var again := Frame(Frame(a).rest + b);
            Frame(a + b) == Framed(Frame(a).packets + again.packets, again.rest, again.stalled)
    decreases |a|
  {
    hide Frame;
    Unfold(a);
    var again := Frame(Frame(a).rest + b);
    if !Incomplete(a) {
      var n := HeaderSize(a);
      FrontOfConcat(a, b);
      Unfold(a + b);
      FrameIsIncremental(a[n..], b);
      assert [a[..n]] + (Frame(a[n..]).packets + again.packets) == Frame(a).packets + again.packets;
    } else {
      assert [] + again.packets == again.packets;
    }
  }

  lemma FrontOfConcat(a: seq<byte>, b: seq<byte>)
    requires !Incomplete(a)
    ensures var n := HeaderSize(a);
            && !Incomplete(a + b) && HeaderSize(a + b) == n
            && (a + b)[..n] == a[..n] && (a + b)[n..] == a[n..] + b
  {
  }

  lemma StallIsPermanent(a: seq<byte>, b: seq<byte>)
    requires Frame(a).stalled
    ensures Frame(a + b).stalled && Frame(a + b).packets == Frame(a).packets
    decreases |a|
  {
    if HeaderSize(a) != 0 {
      var n := HeaderSize(a);
      FrontOfConcat(a, b);
      StallIsPermanent(a[n..], b);
    } else {
      assert HeaderSize(a + b) == 0;
    }
  }

  // ----- the writer -----

  /** The size MakeSendBuffer asks for and writes in the header: 16 bits hold the sum. */
  function PacketSize(dataSize: nat): nat { (dataSize + HEADER_SIZE) % U16_LIMIT }

  /** What MakeSendBuffer and the payload writes put on the wire for one packet. */
  function MakePacket(id: nat, payload: seq<byte>): (p: seq<byte>)
    requires id < U16_LIMIT && |payload| <= 65531
  {
    U16(id) + U16(HEADER_SIZE + |payload|) + payload
  }

  predicate IsPacket(p: seq<byte>)
  {
    HEADER_SIZE <= |p| && HeaderSize(p) == |p|
  }

  function PacketId(p: seq<byte>): nat
    requires IsPacket(p)
  {
    ReadU16(p, 0)
  }

  lemma MadePacketReadsBack(id: nat, payload: seq<byte>)
    requires id < U16_LIMIT && |payload| <= 65531
    ensures var p := MakePacket(id, payload);
            IsPacket(p) && PacketId(p) == id && p[HEADER_SIZE..] == payload
  {
  }

  /** The framer undoes concatenation of packets, whatever incomplete tail follows. */
  lemma {:induction false} FrameOfPackets(ps: seq<seq<byte>>, tail: seq<byte>)
    requires forall p :: p in ps ==> IsPacket(p)
    requires Incomplete(tail)
    ensures Frame(Flatten(ps) + tail) == Framed(ps, tail, false)
  {
    if ps == [] {
      assert Flatten(ps) + tail == tail;
    } else {
      var s := Flatten(ps) + tail;
      var p := ps[0];
      assert IsPacket(p) && s == p + (Flatten(ps[1..]) + tail);
      assert HeaderSize(s) == |p|;
      assert s[|p|..] == Flatten(ps[1..]) + tail;
      FrameOfPackets(ps[1..], tail);
    }
  }

  /** A message as the writer is given it. */
  datatype Message = Message(id: nat, payload: seq<byte>)

  predicate Sendable(m: Message) { m.id < U16_LIMIT && |m.payload| <= 65531 }

  function Encode(ms: seq<Message>): seq<seq<byte>>
    requires forall m :: m in ms ==> Sendable(m)
  {
    if ms == [] then []
    else
      assert Sendable(ms[0]);
      [MakePacket(ms[0].id, ms[0].payload)] + Encode(ms[1..])
  }

  function Decode(ps: seq<seq<byte>>): seq<Message>
    requires forall p :: p in ps ==> IsPacket(p)
  {
    if ps == [] then [] else [Message(PacketId(ps[0]), ps[0][HEADER_SIZE..])] + Decode(ps[1..])
  }

  lemma {:induction false} EncodedDecodes(ms: seq<Message>)
    requires forall m :: m in ms ==> Sendable(m)
    ensures (forall p :: p in Encode(ms) ==> IsPacket(p)) && Decode(Encode(ms)) == ms
  {
    if ms != [] {
      assert ms[0] in ms;
      MadePacketReadsBack(ms[0].id, ms[0].payload);
      EncodedDecodes(ms[1..]);
      assert Encode(ms)[1..] == Encode(ms[1..]);
    }
  }

  /** Writer and framer undo each other on every sequence of messages, and no byte is left over. */
  lemma {:induction false} WriterThenFramer(ms: seq<Message>)
    requires forall m :: m in ms ==> Sendable(m)
    ensures var framed := Frame(Flatten(Encode(ms)));
            framed.rest == [] && !framed.stalled
            && (forall p :: p in framed.packets ==> IsPacket(p))
            && Decode(framed.packets) == ms
  {
    EncodedDecodes(ms);
    FrameOfPackets(Encode(ms), []);
    assert Flatten(Encode(ms)) + [] == Flatten(Encode(ms));
  }

  // ----- the loop -----

  /** One turn of the loop of OnRecv at useLen: None when it breaks, else the next useLen. */
  datatype Turn = Break | Continue(useLen: nat)

  function LoopTurn(s: seq<byte>, useLen: nat): (t: Turn)
    requires useLen <= |s|
    ensures t.Continue? ==> t.useLen <= |s|
  {
    if |s| - useLen < HEADER_SIZE then Break
    else
      var size := ReadU16(s, useLen + 2);
      if |s| - useLen < size then Break else Continue(useLen + size)
  }

  /** The loop started at useLen is left within n turns. */
  predicate LeavesWithin(s: seq<byte>, useLen: nat, n: nat)
    requires useLen <= |s|
    decreases n
  {
    n != 0 &&
    match LoopTurn(s, useLen)
    case Break => true
    case Continue(next) => LeavesWithin(s, next, n - 1)
  }

  lemma {:induction false} LeavesWhenNotStalled(s: seq<byte>, useLen: nat)
    requires useLen <= |s| && !Frame(s[useLen..]).stalled
    ensures LeavesWithin(s, useLen, |s| - useLen + 1)
    decreases |s| - useLen
  {
    hide Frame, LoopTurn, Incomplete, HeaderSize;
    TurnFollowsFrame(s, useLen);
    var turn := LoopTurn(s, useLen);
    if turn.Continue? {
      LeavesWhenNotStalled(s, turn.useLen);
      LeavesWithinMonotone(s, turn.useLen, |s| - turn.useLen + 1, |s| - useLen);
    }
  }

  /** One turn of the loop is one unfolding of Frame. */
  lemma TurnFollowsFrame(s: seq<byte>, useLen: nat)
    requires useLen <= |s|
    ensures var turn := LoopTurn(s, useLen);
            match turn
            case Break => Incomplete(s[useLen..]) && !Frame(s[useLen..]).stalled
            case Continue(next) =>
              && !Incomplete(s[useLen..]) && next == useLen + HeaderSize(s[useLen..])
              && useLen <= next && (useLen == next ==> Frame(s[useLen..]).stalled)
              && Frame(s[useLen..]).stalled == Frame(s[next..]).stalled
  {
    var rest := s[useLen..];
    if !Incomplete(rest) {
      assert rest[HeaderSize(rest)..] == s[useLen + HeaderSize(rest)..];
    }
  }

  lemma {:induction false} LeavesWithinMonotone(s: seq<byte>, useLen: nat, n: nat, m: nat)
    requires useLen <= |s| && n <= m && LeavesWithin(s, useLen, n)
    ensures LeavesWithin(s, useLen, m)
    decreases n
  {
    var t := LoopTurn(s, useLen);
    if t.Continue? {
      LeavesWithinMonotone(s, t.useLen, n - 1, m - 1);
    }
  }

  lemma {:induction false} NeverLeavesWhenStalled(s: seq<byte>, useLen: nat, n: nat)
    requires useLen <= |s| && Frame(s[useLen..]).stalled
    ensures !LeavesWithin(s, useLen, n)
    decreases n
  {
    hide Frame, LoopTurn, Incomplete, HeaderSize;
    TurnFollowsFrame(s, useLen);
    var turn := LoopTurn(s, useLen);
    if n != 0 && turn.Continue? {
      NeverLeavesWhenStalled(s, turn.useLen, n - 1);
    }
  }

  /** The loop of OnRecv ends exactly when no header of size zero is reached. */
  lemma LoopEndsExactlyWhenNotStalled(s: seq<byte>)
    ensures (exists n: nat :: LeavesWithin(s, 0, n)) <==> !Frame(s).stalled
  {
    assert s[0..] == s;
    if Frame(s).stalled {
      forall n: nat ensures !LeavesWithin(s, 0, n) {
        NeverLeavesWhenStalled(s, 0, n);
      }
    } else {
      LeavesWhenNotStalled(s, 0);
      assert exists n: nat :: LeavesWithin(s, 0, n);
    }
  }

  /** There are such headers: four zero bytes from a client are enough. */
  lemma ZeroHeaderStalls(id: nat, more: seq<byte>)
    requires id < U16_LIMIT
    ensures Frame(U16(id) + U16(0) + more).stalled
    ensures forall n: nat :: !LeavesWithin(U16(id) + U16(0) + more, 0, n)
  {
    var s := U16(id) + U16(0) + more;
    assert ReadU16(s, 2) == 0;
    LoopEndsExactlyWhenNotStalled(s);
  }

  /** How far a cut of all has come: handled are the packets in front of useLen. */
  ghost predicate CutTo(all: seq<byte>, useLen: nat, handled: seq<seq<byte>>)
  {
    useLen <= |all| &&
    var tail := Frame(all[useLen..]);
    !tail.stalled && Frame(all) == Framed(handled + tail.packets, tail.rest, false)
  }

  lemma CutStarts(all: seq<byte>)
    requires !Frame(all).stalled
    ensures CutTo(all, 0, [])
  {
    assert all[0..] == all && [] + Frame(all).packets == Frame(all).packets;
  }

  lemma CutOne(all: seq<byte>, useLen: nat, handled: seq<seq<byte>>)
    requires CutTo(all, useLen, handled) && !Incomplete(all[useLen..])
    ensures var next := useLen + HeaderSize(all[useLen..]);
            useLen < next && CutTo(all, next, handled + [all[useLen..next]])
  {
    var rest := all[useLen..];
    var next := useLen + HeaderSize(rest);
    assert rest[HeaderSize(rest)..] == all[next..];
    assert rest[..HeaderSize(rest)] == all[useLen..next];
    var tail := Frame(all[next..]);
    assert handled + ([all[useLen..next]] + tail.packets) == handled + [all[useLen..next]] + tail.packets;
  }

  lemma CutEnds(all: seq<byte>, useLen: nat, handled: seq<seq<byte>>)
    requires CutTo(all, useLen, handled) && Incomplete(all[useLen..])
    ensures handled == Frame(all).packets && Frame(all).rest == all[useLen..]
  {
    assert handled + [] == handled;
  }

  lemma SliceOfSlice(s: seq<byte>, from: nat, to: nat, lo: nat, hi: nat)
    requires lo <= hi && from + hi <= to <= |s|
    ensures s[from..to][lo..hi] == s[from + lo..from + hi]
  {
    var a, b := s[from..to][lo..hi], s[from + lo..from + hi];
    assert forall k :: 0 <= k < hi - lo ==> a[k] == s[from..to][lo + k] == b[k];
  }

  /** The framing loop over the len bytes at start. handled lists the packets given to HandlePacket. */
  method OnRecv(buffer: array<byte>, start: nat, len: nat) returns (useLen: nat, handled: seq<seq<byte>>)
    requires start + len <= buffer.Length
    requires !Frame(buffer[start..start + len]).stalled
    ensures handled == Frame(buffer[start..start + len]).packets
    ensures useLen <= len && buffer[start + useLen..start + len] == Frame(buffer[start..start + len]).rest
  {
    hide Frame, CutTo;
    useLen, handled := 0, [];
    ghost var all := buffer[start..start + len];
    CutStarts(all);
    while true
      invariant useLen <= len && CutTo(all, useLen, handled)
      decreases len - useLen
    {
      ghost var rest := all[useLen..];
      var dataSize := len - useLen;
      if dataSize < HEADER_SIZE {
        break;
      }
      var size := buffer[start + useLen + 2] as int + 256 * (buffer[start + useLen + 3] as int);
      assert rest[2] == buffer[start + useLen + 2] && rest[3] == buffer[start + useLen + 3];
      assert size == HeaderSize(rest);
      if dataSize < size {
        break;
      }
      CutOne(all, useLen, handled);
      SliceOfSlice(buffer[..], start, start + len, useLen, useLen + size);
      handled := handled + [buffer[start + useLen..start + useLen + size]];
      useLen := useLen + size;
    }
    CutEnds(all, useLen, handled);
    SliceOfSlice(buffer[..], start, start + len, useLen, len);
  }
}
