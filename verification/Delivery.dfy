/** Sessions over the send-buffer pool: what is pushed to a session, what waits in its queue and what is on the wire,
    while any number of threads use the allocator. One sender at a time per session. */
module Delivery {
  import opened Bytes
  import opened Chunks
  import opened SendBufferPool
  import opened Wrappers
  import Framing

  type Sid = nat

  /** One entry of the vector given to sendmsg: an address and a length. */
  datatype Iov = Iov(chunk: ChunkId, off: nat, len: nat)

  /** Where the sender of a session is: outside Send, after push_back, or with the vector filled. */
  datatype Phase = Ready | Queued | Gathered(iov: seq<Iov>)

  /** wire: bytes handed to the socket. log: the bytes of each buffer at the time it was pushed.
      lost: bytes of cleared buffers that never reached the wire. */
  datatype Link = Link(connected: bool, queue: seq<RefId>, phase: Phase, wire: seq<byte>, log: seq<seq<byte>>,
                       lost: nat)

  datatype System = System(pool: Pool, links: seq<Link>)

  datatype Event =
    | Alloc(a: Action)
    | PushBuffer(sid: Sid, ref: RefId)
    | SendQueue(sid: Sid, ref: RefId)
    | Gather(sid: Sid)
    | Transmit(sid: Sid, sent: nat)
    | Disconnect(sid: Sid)

  ghost predicate IsQueued(links: seq<Link>, ref: RefId)
  {
    exists sid :: 0 <= sid < |links| && ref in links[sid].queue
  }

  /** A reference that may enter a queue: to a finished buffer, and not the queue's already. */
  ghost predicate Pushable(sys: System, ref: RefId)
  {
    && ref in sys.pool.refs && IsClosed(sys.pool, sys.pool.refs[ref])
    && InBounds(sys.pool, sys.pool.refs[ref]) && !IsQueued(sys.links, ref)
  }

  ghost predicate BufQueued(sys: System, b: BufId)
  {
    exists r :: r in sys.pool.refs && sys.pool.refs[r] == b && IsQueued(sys.links, r)
  }

  /** Nothing is possible after an overrun: what the memory holds then is not defined. */
  ghost predicate Possible(sys: System, e: Event)
  {
    !sys.pool.overrun &&
    match e
    case Alloc(a) =>
      && Enabled(sys.pool, a)
      && (a.Drop? ==> !IsQueued(sys.links, a.ref))
      && (a.WritePayload? ==> !BufQueued(sys, a.buf))
    case PushBuffer(sid, ref) => sid < |sys.links| && sys.links[sid].phase.Ready? && Pushable(sys, ref)
    case SendQueue(sid, ref) => sid < |sys.links| && sys.links[sid].phase.Ready? && Pushable(sys, ref)
    case Gather(sid) =>
      sid < |sys.links| && sys.links[sid].phase.Queued? && QueueReadable(sys.pool, sys.links[sid].queue)
    case Transmit(sid, sent) =>
      && sid < |sys.links| && sys.links[sid].phase.Gathered?
      && (forall v :: v in sys.links[sid].phase.iov ==> IovOk(sys.pool.chunks, v))
      && sent <= |ReadVector(sys.pool.chunks, sys.links[sid].phase.iov)|
    case Disconnect(sid) =>
      sid < |sys.links| && sys.links[sid].phase.Ready? && QueueReadable(sys.pool, sys.links[sid].queue)
  }

  ghost predicate QueueReadable(pool: Pool, queue: seq<RefId>)
  {
    forall r :: r in queue ==> r in pool.refs && InBounds(pool, pool.refs[r])
  }

  ghost predicate IovOk(chunks: map<ChunkId, Chunk>, v: Iov)
  {
    v.chunk in chunks && v.off + v.len <= |chunks[v.chunk].bytes|
  }

  /** What sendmsg reads through the vector, at the time of the call. */
  ghost function ReadVector(chunks: map<ChunkId, Chunk>, iov: seq<Iov>): seq<byte>
    requires forall v :: v in iov ==> IovOk(chunks, v)
  {
    if iov == [] then [] else
    assert IovOk(chunks, iov[0]);
    chunks[iov[0].chunk].Read(iov[0].off, iov[0].len) + ReadVector(chunks, iov[1..])
  }

  ghost function IovOf(pool: Pool, ref: RefId): Iov
    requires ref in pool.refs && InBounds(pool, pool.refs[ref])
  {
    var b := pool.bufs[pool.refs[ref]];
    Iov(b.owner, b.off, b.write)
  }

  ghost function Vector(pool: Pool, queue: seq<RefId>): (iov: seq<Iov>)
    requires QueueReadable(pool, queue)
    ensures |iov| == |queue|
    ensures forall i :: 0 <= i < |queue| ==>
      queue[i] in pool.refs && InBounds(pool, pool.refs[queue[i]]) && iov[i] == IovOf(pool, queue[i])
  {
    if queue == [] then [] else
    assert queue[0] in queue;
    [IovOf(pool, queue[0])] + Vector(pool, queue[1..])
  }

  ghost function BufBytes(pool: Pool, ref: RefId): seq<byte>
    requires ref in pool.refs && InBounds(pool, pool.refs[ref])
  {
    var b := pool.bufs[pool.refs[ref]];
    pool.chunks[b.owner].Read(b.off, b.write)
  }

  /** The bytes of the buffers in a queue, as they are now. */
  ghost function Contents(pool: Pool, queue: seq<RefId>): (contents: seq<seq<byte>>)
    requires QueueReadable(pool, queue)
    ensures |contents| == |queue|
    ensures forall i :: 0 <= i < |queue| ==>
      queue[i] in pool.refs && InBounds(pool, pool.refs[queue[i]]) && contents[i] == BufBytes(pool, queue[i])
  {
    if queue == [] then [] else
    assert queue[0] in queue;
    [BufBytes(pool, queue[0])] + Contents(pool, queue[1..])
  }

  ghost function Pending(pool: Pool, queue: seq<RefId>): seq<byte>
    requires QueueReadable(pool, queue)
  {
    Flatten(Contents(pool, queue))
  }

  lemma VectorReadable(pool: Pool, queue: seq<RefId>)
    requires QueueReadable(pool, queue)
    ensures forall v :: v in Vector(pool, queue) ==> IovOk(pool.chunks, v)
  {
    forall i | 0 <= i < |queue| ensures IovOk(pool.chunks, Vector(pool, queue)[i]) {
      assert queue[i] in queue;
    }
  }

  /** Reading through the vector gives the bytes of the queued buffers, in queue order. */
  lemma {:induction false} VectorReadsContents(pool: Pool, queue: seq<RefId>)
    requires QueueReadable(pool, queue)
    ensures forall v :: v in Vector(pool, queue) ==> IovOk(pool.chunks, v)
    ensures ReadVector(pool.chunks, Vector(pool, queue)) == Pending(pool, queue)
  {
    VectorReadable(pool, queue);
    if queue != [] {
      assert queue[0] in queue;
      assert Vector(pool, queue)[1..] == Vector(pool, queue[1..]);
      assert Contents(pool, queue)[1..] == Contents(pool, queue[1..]);
      VectorReadsContents(pool, queue[1..]);
    }
  }

  ghost function Enqueue(pool: Pool, l: Link, ref: RefId): Link
    requires ref in pool.refs && InBounds(pool, pool.refs[ref])
  {
    l.(queue := l.queue + [ref], log := l.log + [BufBytes(pool, ref)])
  }

  /** sendmsg takes the first sent bytes; then the queue is cleared whatever the result was. */
  ghost function Flushed(chunks: map<ChunkId, Chunk>, l: Link, sent: nat): Link
    requires l.phase.Gathered? && (forall v :: v in l.phase.iov ==> IovOk(chunks, v))
    requires sent <= |ReadVector(chunks, l.phase.iov)|
  {
    var bytes := ReadVector(chunks, l.phase.iov);
    l.(queue := [], phase := Ready, wire := l.wire + bytes[..sent], lost := l.lost + |bytes| - sent)
  }

  ghost function Advance(sys: System, e: Event): System
    requires Possible(sys, e)
  {
    match e
    case Alloc(a) => sys.(pool := Next(sys.pool, a))
    case PushBuffer(sid, ref) => sys.(links := sys.links[sid := Enqueue(sys.pool, sys.links[sid], ref)])
    case SendQueue(sid, ref) =>
      if !sys.links[sid].connected then sys
      else sys.(links := sys.links[sid := Enqueue(sys.pool, sys.links[sid], ref).(phase := Queued)])
    case Gather(sid) =>
      var l := sys.links[sid];
      sys.(links := sys.links[sid := l.(phase := Gathered(Vector(sys.pool, l.queue)))])
    case Transmit(sid, sent) => sys.(links := sys.links[sid := Flushed(sys.pool.chunks, sys.links[sid], sent)])
    case Disconnect(sid) =>
      var l := sys.links[sid];
      var dropped := |Pending(sys.pool, l.queue)|;
      sys.(links := sys.links[sid := l.(connected := false, queue := [], lost := l.lost + dropped)])
  }

  /** n threads, m connected sessions, nothing allocated and nothing sent. */
  function Boot(n: nat, m: nat): System
  {
    System(Start(n), seq(m, _ => Link(true, [], Ready, [], [], 0)))
  }

  ghost predicate CanFollow(sys: System, run: seq<Event>)
    decreases |run|
  {
    run == [] || (Possible(sys, run[0]) && CanFollow(Advance(sys, run[0]), run[1..]))
  }

  ghost function Following(sys: System, run: seq<Event>): System
    requires CanFollow(sys, run)
    decreases |run|
  {
    if run == [] then sys else Following(Advance(sys, run[0]), run[1..])
  }

  // ----- the invariant -----

  ghost predicate DistinctTokens(links: seq<Link>)
  {
    forall s, i, u, j ::
      (0 <= s < |links| && 0 <= i < |links[s].queue| && 0 <= u < |links| && 0 <= j < |links[u].queue|
       && links[s].queue[i] == links[u].queue[j]) ==> s == u && i == j
  }

  /** Every queued reference is alive and its buffer still holds what was pushed. */
  ghost predicate QueueOk(pool: Pool, l: Link)
  {
    && |l.queue| <= |l.log|
    && QueueReadable(pool, l.queue)
    && (forall r :: r in l.queue ==> r in pool.refs && IsClosed(pool, pool.refs[r]))
    && Contents(pool, l.queue) == l.log[|l.log| - |l.queue|..]
    && (l.phase.Gathered? ==> l.phase.iov == Vector(pool, l.queue))
  }

  /** The buffers no longer queued are accounted for on the wire or as lost. */
  predicate WireOk(l: Link)
  {
    && |l.queue| <= |l.log|
    && (forall p :: p in l.log ==> Framing.IsPacket(p))
    && |l.wire| + l.lost == |Flatten(l.log[..|l.log| - |l.queue|])|
    && (l.lost == 0 ==> l.wire == Flatten(l.log[..|l.log| - |l.queue|]))
  }

  ghost predicate SysInv(sys: System, w: Places)
  {
    && Inv(sys.pool, w) && DistinctTokens(sys.links)
    && (forall sid :: 0 <= sid < |sys.links| ==> QueueOk(sys.pool, sys.links[sid]) && WireOk(sys.links[sid]))
  }

  // ----- allocator steps leave every queue as it was -----

  lemma TokenStays(s: Pool, a: Action, r: RefId)
    requires Enabled(s, a) && r in s.refs && (a.Drop? ==> a.ref != r)
    ensures r in Next(s, a).refs && Next(s, a).refs[r] == s.refs[r]
  {
  }

  lemma QueuedBufferStays(sys: System, w: Places, a: Action, sid: Sid, i: nat)
    requires SysInv(sys, w) && Possible(sys, Alloc(a)) && sid < |sys.links| && i < |sys.links[sid].queue|
    ensures var r := sys.links[sid].queue[i];
            var pool' := Next(sys.pool, a);
            && r in sys.pool.refs && r in pool'.refs && pool'.refs[r] == sys.pool.refs[r]
            && InBounds(sys.pool, sys.pool.refs[r]) && IsClosed(pool', pool'.refs[r]) && InBounds(pool', pool'.refs[r])
            && BufBytes(pool', r) == BufBytes(sys.pool, r) && IovOf(pool', r) == IovOf(sys.pool, r)
  {
    hide Inv, Enabled, Next;
    var s := sys.pool;
    var r := sys.links[sid].queue[i];
    assert QueueOk(s, sys.links[sid]);
    assert r in sys.links[sid].queue && IsQueued(sys.links, r);
    var b := s.refs[r];
    TokenStays(s, a, r);
    NextKeepsInv(s, w, a);
    TokenIsLive(Next(s, a), PlacesAfter(s, w, a), r);
    StepKeepsContent(s, w, a, b);
    ClosedIsInChunk(s, w, b);
    ClosedIsInChunk(Next(s, a), PlacesAfter(s, w, a), b);
    ClosedIsWhole(s, w, b);
  }

  lemma TokenIsLive(s: Pool, w: Places, r: RefId)
    requires Inv(s, w) && r in s.refs
    ensures s.refs[r] in s.bufs
  {
  }

  lemma ClosedIsWhole(s: Pool, w: Places, b: BufId)
    requires Inv(s, w) && IsClosed(s, b)
    ensures s.bufs[b].write == s.bufs[b].alloc && Framing.HEADER_SIZE <= s.bufs[b].alloc && InBounds(s, b)
    ensures Framing.IsPacket(s.chunks[s.bufs[b].owner].Read(s.bufs[b].off, s.bufs[b].write))
  {
    BufFacts(s, w, b);
  }

  lemma AllocKeepsQueue(sys: System, w: Places, a: Action, sid: Sid)
    requires SysInv(sys, w) && Possible(sys, Alloc(a)) && sid < |sys.links|
    ensures QueueOk(Next(sys.pool, a), sys.links[sid])
  {
    hide Inv, Enabled, Next, WireOk, BufBytes, IovOf, InBounds;
    var l := sys.links[sid];
    var pool' := Next(sys.pool, a);
    assert QueueOk(sys.pool, l);
    forall i | 0 <= i < |l.queue|
      ensures l.queue[i] in pool'.refs && IsClosed(pool', pool'.refs[l.queue[i]])
      ensures InBounds(pool', pool'.refs[l.queue[i]])
      ensures BufBytes(pool', l.queue[i]) == BufBytes(sys.pool, l.queue[i])
      ensures IovOf(pool', l.queue[i]) == IovOf(sys.pool, l.queue[i])
    {
      QueuedBufferStays(sys, w, a, sid, i);
    }
    assert Vector(pool', l.queue) == Vector(sys.pool, l.queue);
    assert Contents(pool', l.queue) == Contents(sys.pool, l.queue);
  }

  // ----- every event keeps the invariant -----

  lemma PushedIsPacket(sys: System, w: Places, ref: RefId)
    requires SysInv(sys, w) && Pushable(sys, ref)
    ensures Framing.IsPacket(BufBytes(sys.pool, ref))
  {
    hide Inv;
    ClosedIsWhole(sys.pool, w, sys.pool.refs[ref]);
  }

  lemma EnqueueKeepsOk(pool: Pool, l: Link, ref: RefId)
    requires QueueOk(pool, l) && WireOk(l) && !l.phase.Gathered?
    requires ref in pool.refs && IsClosed(pool, pool.refs[ref]) && InBounds(pool, pool.refs[ref])
    requires Framing.IsPacket(BufBytes(pool, ref))
    ensures QueueOk(pool, Enqueue(pool, l, ref)) && WireOk(Enqueue(pool, l, ref))
  {
    hide BufBytes, InBounds, IsClosed, Flatten, Framing.IsPacket, Vector;
    var l' := Enqueue(pool, l, ref);
    var k := |l.log| - |l.queue|;
    assert l'.log[..k] == l.log[..k];
    assert Contents(pool, l'.queue) == Contents(pool, l.queue) + [BufBytes(pool, ref)];
    assert l'.log[k..] == l.log[k..] + [BufBytes(pool, ref)];
  }

  lemma NewTokenIsDistinct(links: seq<Link>, sid: Sid, l': Link, ref: RefId)
    requires DistinctTokens(links) && sid < |links| && !IsQueued(links, ref) && l'.queue == links[sid].queue + [ref]
    ensures DistinctTokens(links[sid := l'])
  {
    assert forall u :: 0 <= u < |links| ==> ref !in links[u].queue;
  }

  lemma TakenTokensAreDistinct(links: seq<Link>, sid: Sid, l': Link)
    requires DistinctTokens(links) && sid < |links| && (l'.queue == [] || l'.queue == links[sid].queue)
    ensures DistinctTokens(links[sid := l'])
  {
  }

  /** Bytes that leave the queue are on the wire, in order, or counted as lost. */
  lemma LeaveKeepsWire(l: Link, l': Link, bytes: seq<byte>, sent: nat)
    requires WireOk(l) && bytes == Flatten(l.log[|l.log| - |l.queue|..]) && sent <= |bytes|
    requires l'.queue == [] && l'.log == l.log && l'.wire == l.wire + bytes[..sent]
    requires l'.lost == l.lost + |bytes| - sent
    ensures WireOk(l')
  {
    hide Flatten, Framing.IsPacket;
    var k := |l.log| - |l.queue|;
    FlattenConcat(l.log[..k], l.log[k..]);
    assert l.log == l.log[..k] + l.log[k..];
    assert l'.log[..|l'.log|] == l.log;
  }

  ghost function PlacesFollowing(sys: System, w: Places, e: Event): Places
    requires Possible(sys, e)
  {
    if e.Alloc? then PlacesAfter(sys.pool, w, e.a) else w
  }

  lemma AdvanceKeepsInv(sys: System, w: Places, e: Event)
    requires SysInv(sys, w) && Possible(sys, e)
    ensures SysInv(Advance(sys, e), PlacesFollowing(sys, w, e))
  {
    hide Inv, Enabled, Next, QueueOk, WireOk, DistinctTokens;
    match e
    case Alloc(a) =>
      NextKeepsInv(sys.pool, w, a);
      forall sid | 0 <= sid < |sys.links| ensures QueueOk(Next(sys.pool, a), sys.links[sid]) {
        AllocKeepsQueue(sys, w, a, sid);
      }
    case PushBuffer(sid, ref) => PushKeepsInv(sys, w, sid, ref, Ready);
    case SendQueue(sid, ref) =>
      if sys.links[sid].connected { PushKeepsInv(sys, w, sid, ref, Queued); }
    case Gather(sid) => GatherKeepsInv(sys, w, sid);
    case Transmit(sid, sent) => TransmitKeepsInv(sys, w, sid, sent);
    case Disconnect(sid) => DisconnectKeepsInv(sys, w, sid);
  }

  lemma PushKeepsInv(sys: System, w: Places, sid: Sid, ref: RefId, phase: Phase)
    requires SysInv(sys, w) && sid < |sys.links| && sys.links[sid].phase.Ready? && Pushable(sys, ref)
    requires !phase.Gathered?
    ensures SysInv(sys.(links := sys.links[sid := Enqueue(sys.pool, sys.links[sid], ref).(phase := phase)]), w)
  {
    hide Inv, DistinctTokens, QueueOk, WireOk;
    var l := sys.links[sid];
    PushedIsPacket(sys, w, ref);
    EnqueueKeepsOk(sys.pool, l, ref);
    PhaseOnly(sys.pool, Enqueue(sys.pool, l, ref), phase);
    NewTokenIsDistinct(sys.links, sid, Enqueue(sys.pool, l, ref).(phase := phase), ref);
  }

  lemma PhaseOnly(pool: Pool, l: Link, phase: Phase)
    requires QueueOk(pool, l) && WireOk(l) && (phase.Gathered? ==> phase.iov == Vector(pool, l.queue))
    ensures QueueOk(pool, l.(phase := phase)) && WireOk(l.(phase := phase))
  {
    hide Contents, Vector, Flatten, InBounds, IsClosed, Framing.IsPacket;
  }

  lemma GatherKeepsInv(sys: System, w: Places, sid: Sid)
    requires SysInv(sys, w) && Possible(sys, Gather(sid))
    ensures SysInv(Advance(sys, Gather(sid)), w)
  {
    hide Inv, DistinctTokens, QueueOk, WireOk;
    var l := sys.links[sid];
    var l' := l.(phase := Gathered(Vector(sys.pool, l.queue)));
    PhaseOnly(sys.pool, l, l'.phase);
    TakenTokensAreDistinct(sys.links, sid, l');
  }

  lemma TransmitKeepsInv(sys: System, w: Places, sid: Sid, sent: nat)
    requires SysInv(sys, w) && Possible(sys, Transmit(sid, sent))
    ensures SysInv(Advance(sys, Transmit(sid, sent)), w)
  {
    hide Inv, DistinctTokens, WireOk;
    var l := sys.links[sid];
    var l' := Flushed(sys.pool.chunks, l, sent);
    VectorReadsContents(sys.pool, l.queue);
    LeaveKeepsWire(l, l', ReadVector(sys.pool.chunks, l.phase.iov), sent);
    assert QueueOk(sys.pool, l');
    TakenTokensAreDistinct(sys.links, sid, l');
  }

  lemma DisconnectKeepsInv(sys: System, w: Places, sid: Sid)
    requires SysInv(sys, w) && Possible(sys, Disconnect(sid))
    ensures SysInv(Advance(sys, Disconnect(sid)), w)
  {
    hide Inv, DistinctTokens, WireOk;
    var l := sys.links[sid];
    var l' := Advance(sys, Disconnect(sid)).links[sid];
    var bytes := Pending(sys.pool, l.queue);
    assert l.wire + bytes[..0] == l.wire;
    LeaveKeepsWire(l, l', bytes, 0);
    assert QueueOk(sys.pool, l');
    TakenTokensAreDistinct(sys.links, sid, l');
  }

  lemma BootHasInv(n: nat, m: nat)
    ensures SysInv(Boot(n, m), map[])
  {
    StartHasInv(n);
  }

  lemma {:induction false} RunKeepsSysInv(sys: System, w: Places, run: seq<Event>) returns (w': Places)
    requires SysInv(sys, w) && CanFollow(sys, run)
    ensures SysInv(Following(sys, run), w')
    decreases |run|
  {
    hide SysInv, Advance, Possible;
    if run == [] {
      w' := w;
    } else {
      AdvanceKeepsInv(sys, w, run[0]);
      w' := RunKeepsSysInv(Advance(sys, run[0]), PlacesFollowing(sys, w, run[0]), run[1..]);
    }
  }

  // ----- sending by reference is sending copies -----

  /** The bytes behind ref now. */
  ghost function BytesAt(pool: Pool, ref: RefId): seq<byte>
  {
    if ref in pool.refs && InBounds(pool, pool.refs[ref]) then BufBytes(pool, ref) else []
  }

  ghost function PoolAfter(pool: Pool, e: Event): Pool
  {
    if e.Alloc? && Enabled(pool, e.a) then Next(pool, e.a) else pool
  }

  /** What run pushes to session sid, which is connected or not at first: the bytes of each buffer at the time of its
      push. A Send on a disconnected session pushes nothing. */
  ghost function Pushed(pool: Pool, run: seq<Event>, sid: Sid, connected: bool): seq<seq<byte>>
    decreases |run|
  {
    if run == [] then []
    else
      var pool' := PoolAfter(pool, run[0]);
      match run[0]
      case PushBuffer(s, ref) =>
        (if s == sid then [BytesAt(pool, ref)] else []) + Pushed(pool', run[1..], sid, connected)
      case SendQueue(s, ref) =>
        (if s == sid && connected then [BytesAt(pool, ref)] else []) + Pushed(pool', run[1..], sid, connected)
      case Disconnect(s) => Pushed(pool', run[1..], sid, connected && s != sid)
      case _ => Pushed(pool', run[1..], sid, connected)
  }

  /** A session that copies the bytes of a buffer when it is pushed and never looks at the pool again. */
  datatype Copier = Copier(connected: bool, queued: seq<seq<byte>>, wire: seq<byte>)

  ghost function CopyStep(pool: Pool, c: Copier, e: Event, sid: Sid): Copier
  {
    match e
    case PushBuffer(s, ref) => if s == sid then c.(queued := c.queued + [BytesAt(pool, ref)]) else c
    case SendQueue(s, ref) => if s == sid && c.connected then c.(queued := c.queued + [BytesAt(pool, ref)]) else c
    case Transmit(s, sent) =>
      var bytes := Flatten(c.queued);
      if s == sid then c.(queued := [], wire := c.wire + (if sent <= |bytes| then bytes[..sent] else bytes)) else c
    case Disconnect(s) => if s == sid then c.(connected := false, queued := []) else c
    case _ => c
  }

  ghost function CopyRun(pool: Pool, c: Copier, run: seq<Event>, sid: Sid): Copier
    decreases |run|
  {
    if run == [] then c else CopyRun(PoolAfter(pool, run[0]), CopyStep(pool, c, run[0], sid), run[1..], sid)
  }

  ghost predicate Agrees(pool: Pool, l: Link, c: Copier)
  {
    && QueueReadable(pool, l.queue) && Contents(pool, l.queue) == c.queued
    && l.wire == c.wire && l.connected == c.connected
  }

  lemma AllocAgrees(sys: System, w: Places, a: Action, sid: Sid, c: Copier)
    requires SysInv(sys, w) && Possible(sys, Alloc(a)) && sid < |sys.links| && Agrees(sys.pool, sys.links[sid], c)
    ensures Agrees(Next(sys.pool, a), sys.links[sid], c)
  {
    hide Inv, Enabled, Next, WireOk, DistinctTokens, IsClosed, InBounds;
    AllocKeepsQueue(sys, w, a, sid);
  }

  lemma PushAgrees(pool: Pool, l: Link, c: Copier, ref: RefId)
    requires Agrees(pool, l, c) && ref in pool.refs && InBounds(pool, pool.refs[ref])
    ensures QueueReadable(pool, l.queue + [ref]) && Contents(pool, l.queue + [ref]) == c.queued + [BytesAt(pool, ref)]
  {
    hide BufBytes, InBounds;
    assert Contents(pool, l.queue + [ref]) == Contents(pool, l.queue) + [BufBytes(pool, ref)];
  }

  lemma TransmitAgrees(pool: Pool, l: Link, c: Copier)
    requires Agrees(pool, l, c) && QueueOk(pool, l) && l.phase.Gathered?
    ensures forall v :: v in l.phase.iov ==> IovOk(pool.chunks, v)
    ensures ReadVector(pool.chunks, l.phase.iov) == Flatten(c.queued)
  {
    hide Flatten, InBounds, IsClosed;
    VectorReadsContents(pool, l.queue);
  }

  lemma StepAgrees(sys: System, w: Places, e: Event, sid: Sid, c: Copier)
    requires SysInv(sys, w) && Possible(sys, e) && sid < |sys.links| && Agrees(sys.pool, sys.links[sid], c)
    ensures sid < |Advance(sys, e).links| && Advance(sys, e).pool == PoolAfter(sys.pool, e)
    ensures Agrees(Advance(sys, e).pool, Advance(sys, e).links[sid], CopyStep(sys.pool, c, e, sid))
  {
    hide Inv, Enabled, Next, WireOk, DistinctTokens, IsClosed, InBounds, BytesAt, Contents, ReadVector, Flatten;
    match e
    case Alloc(a) => AllocAgrees(sys, w, a, sid, c);
    case PushBuffer(s, ref) => if s == sid { PushAgrees(sys.pool, sys.links[sid], c, ref); }
    case SendQueue(s, ref) => if s == sid { PushAgrees(sys.pool, sys.links[sid], c, ref); }
    case Transmit(s, sent) => if s == sid { TransmitAgrees(sys.pool, sys.links[sid], c); NoContents(sys.pool); }
    case Disconnect(s) => NoContents(sys.pool);
    case Gather(s) =>
  }

  lemma NoContents(pool: Pool)
    ensures QueueReadable(pool, []) && Contents(pool, []) == []
  {
  }

  lemma {:induction false} RunAgrees(sys: System, w: Places, run: seq<Event>, sid: Sid, c: Copier)
    requires SysInv(sys, w) && CanFollow(sys, run) && sid < |sys.links| && Agrees(sys.pool, sys.links[sid], c)
    ensures sid < |Following(sys, run).links|
    ensures Agrees(Following(sys, run).pool, Following(sys, run).links[sid], CopyRun(sys.pool, c, run, sid))
    decreases |run|
  {
    hide SysInv, Advance, Possible, Agrees, CopyStep, PoolAfter;
    if run != [] {
      StepAgrees(sys, w, run[0], sid, c);
      AdvanceKeepsInv(sys, w, run[0]);
      RunAgrees(Advance(sys, run[0]), PlacesFollowing(sys, w, run[0]), run[1..], sid,
                CopyStep(sys.pool, c, run[0], sid));
    }
  }

  /** Zero-copy sending is correct: in every run, with short sends and disconnects too, the bytes on the wire and those
      waiting are just what a session that copies each buffer when it is pushed would have. */
  lemma SendsLikeACopier(n: nat, m: nat, run: seq<Event>, sid: Sid)
    requires CanFollow(Boot(n, m), run) && sid < m
    ensures sid < |Following(Boot(n, m), run).links|
    ensures var sys := Following(Boot(n, m), run);
            var l, c := sys.links[sid], CopyRun(Start(n), Copier(true, [], []), run, sid);
            && l.wire == c.wire && l.connected == c.connected
            && QueueReadable(sys.pool, l.queue) && Contents(sys.pool, l.queue) == c.queued
  {
    hide SysInv, CanFollow, Following, CopyRun;
    BootHasInv(n, m);
    NoContents(Start(n));
    RunAgrees(Boot(n, m), map[], run, sid, Copier(true, [], []));
  }

  lemma StepLogs(sys: System, e: Event, sid: Sid)
    requires Possible(sys, e) && sid < |sys.links|
    ensures sid < |Advance(sys, e).links| && Advance(sys, e).pool == PoolAfter(sys.pool, e)
    ensures Advance(sys, e).links[sid].connected == (sys.links[sid].connected && e != Disconnect(sid))
    ensures Advance(sys, e).links[sid].log ==
            sys.links[sid].log + Pushed(sys.pool, [e], sid, sys.links[sid].connected)
  {
    hide Enabled, Next, Pending, ReadVector, BufBytes, InBounds, IsClosed;
    OneEvent(sys.pool, e, sid, sys.links[sid].connected);
  }

  lemma OneEvent(pool: Pool, e: Event, sid: Sid, connected: bool)
    ensures Pushed(pool, [e], sid, connected) ==
            match e
            case PushBuffer(s, ref) => if s == sid then [BytesAt(pool, ref)] else []
            case SendQueue(s, ref) => if s == sid && connected then [BytesAt(pool, ref)] else []
            case _ => []
  {
    hide BytesAt, PoolAfter;
    assert [e][1..] == [];
  }

  lemma PushedFirst(pool: Pool, run: seq<Event>, sid: Sid, connected: bool)
    requires run != []
    ensures Pushed(pool, run, sid, connected) ==
            Pushed(pool, [run[0]], sid, connected)
            + Pushed(PoolAfter(pool, run[0]), run[1..], sid, connected && run[0] != Disconnect(sid))
  {
    hide BytesAt, PoolAfter;
    OneEvent(pool, run[0], sid, connected);
  }

  lemma {:induction false} LogIsPushedFrom(sys: System, run: seq<Event>, sid: Sid)
    requires CanFollow(sys, run) && sid < |sys.links|
    ensures sid < |Following(sys, run).links|
    ensures Following(sys, run).links[sid].log ==
            sys.links[sid].log + Pushed(sys.pool, run, sid, sys.links[sid].connected)
    decreases |run|
  {
    hide Advance, Possible, Pushed, PoolAfter;
    if run == [] {
      assert Pushed(sys.pool, run, sid, sys.links[sid].connected) == [] by { NothingPushed(sys.pool, sid); }
    } else {
      StepLogs(sys, run[0], sid);
      PushedFirst(sys.pool, run, sid, sys.links[sid].connected);
      LogIsPushedFrom(Advance(sys, run[0]), run[1..], sid);
    }
  }

  lemma NothingPushed(pool: Pool, sid: Sid)
    ensures forall connected :: Pushed(pool, [], sid, connected) == []
  {
  }

  /** The log of a session is what the run pushed to it. */
  lemma LogIsWhatWasPushed(n: nat, m: nat, run: seq<Event>, sid: Sid)
    requires CanFollow(Boot(n, m), run) && sid < m
    ensures sid < |Following(Boot(n, m), run).links|
    ensures Following(Boot(n, m), run).links[sid].log == Pushed(Start(n), run, sid, true)
  {
    hide CanFollow, Following, Pushed;
    LogIsPushedFrom(Boot(n, m), run, sid);
  }

  // ----- the promises -----

  /** End to end: whatever the threads do with the pool meanwhile, the wire followed by what is queued is exactly what
      was pushed, in order, if and only if no byte was lost; and then framing the wire gives back the sent packets. */
  lemma DeliveredInOrder(n: nat, m: nat, run: seq<Event>, sid: Sid)
    requires CanFollow(Boot(n, m), run) && sid < m
    ensures sid < |Following(Boot(n, m), run).links|
    ensures var sys := Following(Boot(n, m), run);
            var l, pushed := sys.links[sid], Pushed(Start(n), run, sid, true);
            && QueueReadable(sys.pool, l.queue) && |l.queue| <= |pushed|
            && (l.wire + Pending(sys.pool, l.queue) == Flatten(pushed) <==> l.lost == 0)
            && (l.lost == 0 ==> Framing.Frame(l.wire) == Framing.Framed(pushed[..|pushed| - |l.queue|], [], false))
            && (l.lost == 0 ==>
                  Framing.Frame(l.wire + Pending(sys.pool, l.queue)) == Framing.Framed(pushed, [], false))
  {
    hide Inv, CanFollow, Following, QueueOk, WireOk, Pushed;
    BootHasInv(n, m);
    var w := RunKeepsSysInv(Boot(n, m), map[], run);
    var sys := Following(Boot(n, m), run);
    LogIsWhatWasPushed(n, m, run, sid);
    LinkPromises(sys.pool, sys.links[sid]);
  }

  lemma LinkPromises(pool: Pool, l: Link)
    requires QueueOk(pool, l) && WireOk(l)
    ensures QueueReadable(pool, l.queue) && |l.queue| <= |l.log|
    ensures l.wire + Pending(pool, l.queue) == Flatten(l.log) <==> l.lost == 0
    ensures l.lost == 0 ==> Framing.Frame(l.wire) == Framing.Framed(l.log[..|l.log| - |l.queue|], [], false)
    ensures l.lost == 0 ==> Framing.Frame(l.wire + Pending(pool, l.queue)) == Framing.Framed(l.log, [], false)
  {
    hide Flatten, Framing.Frame, Framing.IsPacket, InBounds, IsClosed, BufBytes, Vector;
    var k := |l.log| - |l.queue|;
    var sent, all := Flatten(l.log[..k]), Flatten(l.log);
    assert all == sent + Pending(pool, l.queue) by {
      FlattenConcat(l.log[..k], l.log[k..]);
      assert l.log == l.log[..k] + l.log[k..];
    }
    assert |l.wire + Pending(pool, l.queue)| + l.lost == |all|;
    FramedBack(l.log[..k]);
    FramedBack(l.log);
  }

  lemma FramedBack(ps: seq<seq<byte>>)
    requires forall p :: p in ps ==> Framing.IsPacket(p)
    ensures Framing.Frame(Flatten(ps)) == Framing.Framed(ps, [], false)
  {
    Framing.FrameOfPackets(ps, []);
    assert Flatten(ps) + [] == Flatten(ps);
  }

  /** Session sid neither sends short nor is disconnected with bytes queued, in the whole run. */
  ghost predicate SendsInFull(sys: System, run: seq<Event>, sid: Sid)
    requires CanFollow(sys, run)
    decreases |run|
  {
    run == [] || (LosesNothing(sys, run[0], sid) && SendsInFull(Advance(sys, run[0]), run[1..], sid))
  }

  /** If e is a transmission of session sid it sends everything, and if it is a disconnect nothing is queued. */
  ghost predicate LosesNothing(sys: System, e: Event, sid: Sid)
    requires Possible(sys, e)
  {
    match e
    case Transmit(s, sent) => s == sid ==> sent == |ReadVector(sys.pool.chunks, sys.links[s].phase.iov)|
    case Disconnect(s) => s == sid ==> Pending(sys.pool, sys.links[s].queue) == []
    case _ => true
  }

  /** Exactly those runs lose nothing: the code does not resend after a short or failed sendmsg. */
  lemma {:induction false} NothingLostExactlyWhenSentInFull(sys: System, run: seq<Event>, sid: Sid)
    requires CanFollow(sys, run) && sid < |sys.links|
    ensures sid < |Following(sys, run).links| && sys.links[sid].lost <= Following(sys, run).links[sid].lost
    ensures Following(sys, run).links[sid].lost == sys.links[sid].lost <==> SendsInFull(sys, run, sid)
    decreases |run|
  {
    if run != [] {
      NothingLostExactlyWhenSentInFull(Advance(sys, run[0]), run[1..], sid);
    }
  }

  /** A disconnected session puts nothing more on the wire, whatever is pushed or sent to it. */
  lemma {:induction false} DisconnectedIsSilent(sys: System, run: seq<Event>, sid: Sid)
    requires CanFollow(sys, run) && sid < |sys.links| && !sys.links[sid].connected && sys.links[sid].phase.Ready?
    ensures sid < |Following(sys, run).links|
    ensures var l := Following(sys, run).links[sid];
            !l.connected && l.phase.Ready? && l.wire == sys.links[sid].wire
    decreases |run|
  {
    if run != [] {
      DisconnectedIsSilent(Advance(sys, run[0]), run[1..], sid);
    }
  }

  /** A sender never finds a dangling reference: between push_back and sendmsg every address in its vector stays good,
      and what sendmsg can take is exactly what is queued. */
  lemma SenderCanAlwaysFinish(n: nat, m: nat, run: seq<Event>, sid: Sid)
    requires CanFollow(Boot(n, m), run) && sid < |Following(Boot(n, m), run).links|
    requires !Following(Boot(n, m), run).pool.overrun
    ensures var sys := Following(Boot(n, m), run);
            var l := sys.links[sid];
            && QueueReadable(sys.pool, l.queue)
            && (l.phase.Queued? ==> Possible(sys, Gather(sid)))
            && (l.phase.Gathered? ==>
                  && Possible(sys, Transmit(sid, |Pending(sys.pool, l.queue)|))
                  && ReadVector(sys.pool.chunks, l.phase.iov) == Pending(sys.pool, l.queue))
  {
    hide Inv, CanFollow, Following, WireOk, DistinctTokens;
    BootHasInv(n, m);
    var w := RunKeepsSysInv(Boot(n, m), map[], run);
    var sys := Following(Boot(n, m), run);
    assert QueueOk(sys.pool, sys.links[sid]);
    VectorReadsContents(sys.pool, sys.links[sid].queue);
  }

  /** An idle sender may always push or send a finished buffer it has a reference to, and disconnect. */
  lemma SenderMayAlwaysPush(n: nat, m: nat, run: seq<Event>, sid: Sid, ref: RefId)
    requires CanFollow(Boot(n, m), run) && sid < |Following(Boot(n, m), run).links|
    requires !Following(Boot(n, m), run).pool.overrun && Following(Boot(n, m), run).links[sid].phase.Ready?
    requires ref in Following(Boot(n, m), run).pool.refs && !IsQueued(Following(Boot(n, m), run).links, ref)
    requires IsClosed(Following(Boot(n, m), run).pool, Following(Boot(n, m), run).pool.refs[ref])
    ensures var sys := Following(Boot(n, m), run);
            Possible(sys, PushBuffer(sid, ref)) && Possible(sys, SendQueue(sid, ref)) && Possible(sys, Disconnect(sid))
  {
    hide Inv, CanFollow, Following, WireOk, DistinctTokens;
    BootHasInv(n, m);
    var w := RunKeepsSysInv(Boot(n, m), map[], run);
    var sys := Following(Boot(n, m), run);
    assert QueueOk(sys.pool, sys.links[sid]);
    ClosedIsWhole(sys.pool, w, sys.pool.refs[ref]);
  }

  // ----- a packet sent in part -----

  /** A run of the allocator alone, seen from the sessions. */
  ghost function Lifted(run: seq<Action>): seq<Event>
  {
    if run == [] then [] else [Alloc(run[0])] + Lifted(run[1..])
  }

  lemma {:induction false} LiftedRun(sys: System, run: seq<Action>)
    requires CanRun(sys.pool, run) && (forall a :: a in run ==> !a.Drop? && !a.WritePayload?)
    ensures CanFollow(sys, Lifted(run)) && Following(sys, Lifted(run)) == sys.(pool := After(sys.pool, run))
    decreases |run|
  {
    hide Enabled, Next;
    if run != [] {
      assert run[0] in run && (forall a :: a in run[1..] ==> a in run);
      assert Possible(sys, Alloc(run[0])) by { assert !sys.pool.overrun by { EnabledIsDefined(sys.pool, run[0]); } }
      assert Lifted(run)[1..] == Lifted(run[1..]);
      LiftedRun(Advance(sys, Alloc(run[0])), run[1..]);
    }
  }

  lemma EnabledIsDefined(s: Pool, a: Action)
    requires Enabled(s, a)
    ensures !s.overrun
  {
  }

  lemma {:induction false} FollowedBy(sys: System, run: seq<Event>, e: Event)
    requires CanFollow(sys, run) && Possible(Following(sys, run), e)
    ensures CanFollow(sys, run + [e]) && Following(sys, run + [e]) == Advance(Following(sys, run), e)
    decreases |run|
  {
    hide Possible, Advance;
    if run == [] {
      assert run + [e] == [e];
      assert CanFollow(Advance(sys, e), []);
    } else {
      assert (run + [e])[1..] == run[1..] + [e];
      FollowedBy(Advance(sys, run[0]), run[1..], e);
    }
  }

  lemma BootStarts(dataSize: nat) returns (run: seq<Event>, ref: RefId)
    requires dataSize <= 65531
    ensures CanFollow(Boot(1, 1), run)
    ensures var sys := Following(Boot(1, 1), run);
            && sys.links == Boot(1, 1).links && !sys.pool.overrun
            && ref in sys.pool.refs && IsClosed(sys.pool, sys.pool.refs[ref])
            && sys.pool.bufs[sys.pool.refs[ref]].alloc == Framing.HEADER_SIZE + dataSize
  {
    hide CanRun, After, Next, CanFollow, Following;
    assert Reachable(1, Start(1)) by { NothingAsked(1); NoActions(Start(1)); }
    var own;
    own, ref := EveryRequestFinishes(1, Start(1), 0, dataSize, 0);
    run := Lifted([Begin(0, dataSize, 0)] + own);
    LiftedRun(Boot(1, 1), [Begin(0, dataSize, 0)] + own);
  }

  lemma NoActions(s: Pool)
    ensures CanRun(s, [])
  {
  }

  /** Every split of a packet into bytes sent and bytes lost happens: the socket takes any part of it and the rest is
      gone. With all of it taken nothing is lost. */
  lemma AnyPartCanBeLost(dataSize: nat, sent: nat) returns (run: seq<Event>)
    requires dataSize <= 65531 && sent <= Framing.HEADER_SIZE + dataSize
    ensures CanFollow(Boot(1, 1), run) && |Following(Boot(1, 1), run).links| == 1
    ensures var l := Following(Boot(1, 1), run).links[0];
            && l.connected && l.queue == [] && |l.log| == 1 && |l.log[0]| == Framing.HEADER_SIZE + dataSize
            && l.wire == l.log[0][..sent] && l.lost == Framing.HEADER_SIZE + dataSize - sent
  {
    hide CanFollow, Following, Inv, Possible, Advance, IsClosed;
    var first, ref := BootStarts(dataSize);
    BootHasInv(1, 1);
    var w := RunKeepsSysInv(Boot(1, 1), map[], first);
    var sys := Following(Boot(1, 1), first);
    ClosedIsWhole(sys.pool, w, sys.pool.refs[ref]);
    SendsPart(sys, ref, sent);
    var e1, e2, e3 := SendQueue(0, ref), Gather(0), Transmit(0, sent);
    FollowedBy(Boot(1, 1), first, e1);
    FollowedBy(Boot(1, 1), first + [e1], e2);
    FollowedBy(Boot(1, 1), first + [e1] + [e2], e3);
    run := first + [e1] + [e2] + [e3];
  }

  /** The three events of one Send on the only session, with nothing queued before. */
  lemma SendsPart(sys: System, ref: RefId, sent: nat)
    requires sys.links == [Link(true, [], Ready, [], [], 0)] && !sys.pool.overrun
    requires ref in sys.pool.refs && IsClosed(sys.pool, sys.pool.refs[ref]) && InBounds(sys.pool, sys.pool.refs[ref])
    requires sent <= |BufBytes(sys.pool, ref)|
    ensures Possible(sys, SendQueue(0, ref))
    ensures var s1 := Advance(sys, SendQueue(0, ref));
            Possible(s1, Gather(0)) &&
            var s2 := Advance(s1, Gather(0));
            Possible(s2, Transmit(0, sent)) &&
            var s3 := Advance(s2, Transmit(0, sent));
            var bytes := BufBytes(sys.pool, ref);
            s3.links == [Link(true, [], Ready, bytes[..sent], [bytes], |bytes| - sent)]
  {
    hide BufBytes, IsClosed, InBounds, Vector, ReadVector;
    OneEntry(sys.pool, ref);
    var bytes := BufBytes(sys.pool, ref);
    var s1 := Advance(sys, SendQueue(0, ref));
    assert s1.links[0] == Link(true, [ref], Queued, [], [bytes], 0) && s1.pool == sys.pool;
    var s2 := Advance(s1, Gather(0));
    var s3 := Advance(s2, Transmit(0, sent));
    assert s3.links[0] == Link(true, [], Ready, bytes[..sent], [bytes], |bytes| - sent);
  }

  lemma OneEntry(pool: Pool, ref: RefId)
    requires ref in pool.refs && InBounds(pool, pool.refs[ref])
    ensures QueueReadable(pool, [ref]) && Pending(pool, [ref]) == BufBytes(pool, ref)
    ensures forall v :: v in Vector(pool, [ref]) ==> IovOk(pool.chunks, v)
    ensures ReadVector(pool.chunks, Vector(pool, [ref])) == BufBytes(pool, ref)
  {
    VectorReadsContents(pool, [ref]);
    assert Contents(pool, [ref]) == [BufBytes(pool, ref)];
    FlattenCons(BufBytes(pool, ref), []);
    assert [BufBytes(pool, ref)] + [] == [BufBytes(pool, ref)];
  }

  // ----- from the request to the log -----

  /** What run does to the pool. */
  ghost function PoolRun(run: seq<Event>): seq<Action>
    decreases |run|
  {
    if run == [] then [] else (if run[0].Alloc? then [run[0].a] else []) + PoolRun(run[1..])
  }

  lemma {:induction false} PoolFollows(sys: System, run: seq<Event>)
    requires CanFollow(sys, run)
    ensures CanRun(sys.pool, PoolRun(run)) && Following(sys, run).pool == After(sys.pool, PoolRun(run))
    decreases |run|
  {
    hide Enabled, Next, Advance;
    if run != [] {
      PoolFollows(Advance(sys, run[0]), run[1..]);
      PoolStep(sys, run[0]);
      var rest := PoolRun(run[1..]);
      if run[0].Alloc? {
        FirstStep(sys.pool, run[0].a, rest);
        assert PoolRun(run) == [run[0].a] + rest;
      } else {
        assert PoolRun(run) == [] + rest == rest;
      }
    }
  }

  lemma PoolStep(sys: System, e: Event)
    requires Possible(sys, e)
    ensures if e.Alloc? then Enabled(sys.pool, e.a) && Advance(sys, e).pool == Next(sys.pool, e.a)
            else Advance(sys, e).pool == sys.pool
  {
    hide Enabled, Next;
  }

  /** A packet asked for with an id, closed and written with a payload, while anything else goes on in the pool and the
      sessions, is logged as that packet when a reference to it is pushed. */
  lemma PushedAsWritten(n: nat, m: nat, run: seq<Event>, first: seq<Action>, t: Tid, later: seq<Action>,
                        payload: seq<byte>, sid: Sid, ref: RefId, e: Event)
    requires CanFollow(Boot(n, m), run) && sid < m && (e == PushBuffer(sid, ref) || e == SendQueue(sid, ref))
    requires sid < |Following(Boot(n, m), run).links| && Possible(Following(Boot(n, m), run), e)
    requires e.SendQueue? ==> Following(Boot(n, m), run).links[sid].connected
    requires PoolRun(run) == first + [CloseBuf(t)] + later
    requires CanRun(Start(n), first + [CloseBuf(t)]) && CanRun(After(Start(n), first + [CloseBuf(t)]), later)
    requires CanRun(Start(n), first) && t < |After(Start(n), first).threads|
    requires After(Start(n), first).threads[t].pc.Closing?
    requires var b := After(Start(n), first).threads[t].pc.buf;
             && LiveThroughout(After(Start(n), first + [CloseBuf(t)]), later, b)
             && Requested(first, t) == Some(|payload|) && Spells(later, b, 0, payload)
             && ref in Following(Boot(n, m), run).pool.refs && Following(Boot(n, m), run).pool.refs[ref] == b
    ensures |payload| <= 65531 && RequestedId(first, t).Some? && RequestedId(first, t).value < U16_LIMIT
    ensures var sys := Following(Boot(n, m), run);
            && sid < |Advance(sys, e).links|
            && Advance(sys, e).links[sid].log ==
               sys.links[sid].log + [Framing.MakePacket(RequestedId(first, t).value, payload)]
  {
    hide CanFollow, Following, CanRun, After, LiveThroughout, Spells, Requested, RequestedId, Inv, Advance, Pushed;
    hide Framing.MakePacket, Content, Start;
    var sys := Following(Boot(n, m), run);
    var b := After(Start(n), first).threads[t].pc.buf;
    PoolFollows(Boot(n, m), run);
    RunConcat(Start(n), first + [CloseBuf(t)], later);
    BufferHoldsItsPacket(n, first, t, later, payload);
    BootHasInv(n, m);
    var w := RunKeepsSysInv(Boot(n, m), map[], run);
    ClosedIsWhole(sys.pool, w, b);
    StepLogs(sys, e, sid);
    OneEvent(sys.pool, e, sid, sys.links[sid].connected);
    WholeContent(sys.pool, ref);
  }

  lemma WholeContent(pool: Pool, ref: RefId)
    requires ref in pool.refs && InBounds(pool, pool.refs[ref]) && InChunk(pool.chunks, pool.bufs[pool.refs[ref]])
    requires pool.bufs[pool.refs[ref]].write == pool.bufs[pool.refs[ref]].alloc
    ensures BytesAt(pool, ref) == Content(pool.chunks, pool.bufs[pool.refs[ref]])
  {
  }

  lemma {:induction false} RunConcat(s: Pool, a: seq<Action>, b: seq<Action>)
    requires CanRun(s, a) && CanRun(After(s, a), b)
    ensures CanRun(s, a + b) && After(s, a + b) == After(After(s, a), b)
    decreases |a|
  {
    hide Enabled, Next;
    if a == [] {
      assert a + b == b;
    } else {
      assert (a + b)[1..] == a[1..] + b;
      RunConcat(Next(s, a[0]), a[1..], b);
    }
  }
}
