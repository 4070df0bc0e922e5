/** The send-buffer pool as a step system: any number of threads, one step per access to shared state.
    Shared references are tokens: an object dies with its last token or referrer. */
module SendBufferPool {
  import opened Bytes
  import opened Wrappers
  import opened Chunks
  import Framing

  type Tid = nat
  type ChunkId = nat
  type BufId = nat
  type RefId = nat

  /** A SendBuffer: owner chunk, offset of its first byte, allocated size, and written size (0 until Close). */
  datatype Buf = Buf(owner: ChunkId, off: nat, alloc: nat, write: nat)

  /** Where a thread is inside MakeSendBuffer. first: the slot was empty when Open began. */
  datatype Pc =
    | Idle
    | Popping(size: nat, id: nat, first: bool)
    | Installing(size: nat, id: nat, first: bool, chunk: ChunkId)
    | Resetting(size: nat, id: nat, first: bool)
    | Checking(size: nat, id: nat)
    | Opening(size: nat, id: nat)
    | Heading(buf: BufId, id: nat)
    | Closing(buf: BufId, id: nat)
    | Crashed

  /** slot: the thread-local chunk. ret: a chunk whose deleter this thread is running, not yet back in the pool. */
  datatype Thread = Thread(pc: Pc, slot: Option<ChunkId>, ret: Option<ChunkId>)

  /** overrun: a thread has come to write a header, and a payload, that do not fit the bytes it was given. What happens
      then is not defined, so no step follows. */
  datatype Pool = Pool(
    chunks: map<ChunkId, Chunk>,
    free: seq<ChunkId>,
    threads: seq<Thread>,
    bufs: map<BufId, Buf>,
    refs: map<RefId, BufId>,
    overrun: bool)

  datatype Action =
    | Begin(t: Tid, dataSize: nat, id: nat)          // MakeSendBuffer calls SendBufferManager::Open
    | Pop(t: Tid, newChunk: ChunkId)                 // the locked part of Pop, or a new chunk
    | Install(t: Tid)                                // assignment to the slot drops the old chunk
    | PushBack(t: Tid)                               // the locked part of PushGlobal
    | ResetSlot(t: Tid)
    | Check(t: Tid)                                  // assertion and size test on the slot
    | OpenSlot(t: Tid, buf: BufId, ref: RefId)
    | WriteHeader(t: Tid)
    | CloseBuf(t: Tid)
    | WritePayload(buf: BufId, at: nat, data: seq<byte>)
    | Share(ref: RefId, copy: RefId)
    | Drop(t: Tid, ref: RefId)
    | EndThread(t: Tid)

  // ----- steps -----

  ghost predicate Free(s: Pool, t: Tid)
  {
    t < |s.threads| && s.threads[t].pc.Idle? && s.threads[t].ret.None?
  }

  ghost predicate At(s: Pool, t: Tid)
  {
    t < |s.threads| && s.threads[t].ret.None?
  }

  ghost predicate SlotInUse(s: Pool, t: Tid)
  {
    t < |s.threads| && s.threads[t].slot.Some? && s.threads[t].slot.value in s.chunks
  }

  ghost predicate Enabled(s: Pool, a: Action)
  {
    !s.overrun &&
    match a
    case Begin(t, dataSize, id) => Free(s, t) && dataSize < U16_LIMIT && id < U16_LIMIT
    case Pop(t, newChunk) => At(s, t) && s.threads[t].pc.Popping? && newChunk !in s.chunks
    case Install(t) => At(s, t) && s.threads[t].pc.Installing?
    case PushBack(t) => t < |s.threads| && s.threads[t].ret.Some?
    case ResetSlot(t) => At(s, t) && s.threads[t].pc.Resetting? && SlotInUse(s, t)
    case Check(t) => At(s, t) && s.threads[t].pc.Checking? && SlotInUse(s, t)
    case OpenSlot(t, buf, ref) =>
      At(s, t) && s.threads[t].pc.Opening? && SlotInUse(s, t) && buf !in s.bufs && ref !in s.refs
    case WriteHeader(t) =>
      At(s, t) && s.threads[t].pc.Heading? && InBounds(s, s.threads[t].pc.buf) && s.threads[t].pc.id < U16_LIMIT
      && s.bufs[s.threads[t].pc.buf].alloc < U16_LIMIT
    case CloseBuf(t) => At(s, t) && s.threads[t].pc.Closing? && InBounds(s, s.threads[t].pc.buf)
    case WritePayload(buf, at, data) =>
      InBounds(s, buf) && Framing.HEADER_SIZE <= at && at + |data| <= s.bufs[buf].write
    case Share(ref, copy) => ref in s.refs && copy !in s.refs && IsClosed(s, s.refs[ref])
    case Drop(t, ref) => Free(s, t) && ref in s.refs && IsClosed(s, s.refs[ref])
    case EndThread(t) => Free(s, t)
  }

  ghost predicate InBounds(s: Pool, b: BufId)
  {
    b in s.bufs && s.bufs[b].owner in s.chunks && s.bufs[b].write <= s.bufs[b].alloc
    && s.bufs[b].off + s.bufs[b].alloc <= |s.chunks[s.bufs[b].owner].bytes|
  }

  ghost predicate IsClosed(s: Pool, b: BufId)
  {
    b in s.bufs && s.bufs[b].write != 0
  }

  /** Some thread's slot, some thread's local variable or some live buffer refers to chunk c. */
  ghost predicate Referenced(s: Pool, c: ChunkId)
  {
    || (exists t :: 0 <= t < |s.threads| && Refers(s.threads[t], c))
    || Owned(s.bufs, c)
  }

  predicate Refers(th: Thread, c: ChunkId)
  {
    th.slot == Some(c) || (th.pc.Installing? && th.pc.chunk == c)
  }

  /** A reference to c has just been dropped by thread t: the deleter runs if it was the last one. */
  ghost function Released(s: Pool, t: Tid, c: ChunkId): Pool
    requires t < |s.threads|
  {
    if Referenced(s, c) then s else s.(threads := s.threads[t := s.threads[t].(ret := Some(c))])
  }

  function SetPc(s: Pool, t: Tid, pc: Pc): Pool
    requires t < |s.threads|
  {
    s.(threads := s.threads[t := s.threads[t].(pc := pc)])
  }

  ghost function BeginStep(s: Pool, t: Tid, dataSize: nat, id: nat): Pool
    requires Enabled(s, Begin(t, dataSize, id))
  {
    var size := Framing.PacketSize(dataSize);
    SetPc(s, t, if s.threads[t].slot.None? then Popping(size, id, true) else Checking(size, id))
  }

  ghost function PopStep(s: Pool, t: Tid, newChunk: ChunkId): Pool
    requires Enabled(s, Pop(t, newChunk))
  {
    var pc := s.threads[t].pc;
    if s.free != [] then
      var n := |s.free| - 1;
      SetPc(s.(free := s.free[..n]), t, Installing(pc.size, pc.id, pc.first, s.free[n]))
    else
      SetPc(s.(chunks := s.chunks[newChunk := NewChunk()]), t, Installing(pc.size, pc.id, pc.first, newChunk))
  }

  ghost function InstallStep(s: Pool, t: Tid): Pool
    requires Enabled(s, Install(t))
  {
    var th := s.threads[t];
    var th' := Thread(Resetting(th.pc.size, th.pc.id, th.pc.first), Some(th.pc.chunk), None);
    var s1 := s.(threads := s.threads[t := th']);
    if th.slot.None? then s1 else Released(s1, t, th.slot.value)
  }

  ghost function PushBackStep(s: Pool, t: Tid): Pool
    requires Enabled(s, PushBack(t))
  {
    s.(free := s.free + [s.threads[t].ret.value], threads := s.threads[t := s.threads[t].(ret := None)])
  }

  ghost function ResetStep(s: Pool, t: Tid): Pool
    requires Enabled(s, ResetSlot(t))
  {
    var pc := s.threads[t].pc;
    var c := s.threads[t].slot.value;
    SetPc(s.(chunks := s.chunks[c := s.chunks[c].Reset()]), t,
          if pc.first then Checking(pc.size, pc.id) else Opening(pc.size, pc.id))
  }

  ghost function CheckStep(s: Pool, t: Tid): Pool
    requires Enabled(s, Check(t))
  {
    var pc := s.threads[t].pc;
    var c := s.chunks[s.threads[t].slot.value];
    SetPc(s, t, if c.open then Crashed
                else if c.FreeSize() < pc.size then Popping(pc.size, pc.id, false)
                else Opening(pc.size, pc.id))
  }

  /** NoRoom is a null reference, which MakeSendBuffer dereferences next. */
  ghost function OpenStep(s: Pool, t: Tid, buf: BufId, ref: RefId): Pool
    requires Enabled(s, OpenSlot(t, buf, ref))
  {
    var pc := s.threads[t].pc;
    var c := s.threads[t].slot.value;
    match s.chunks[c].Open(pc.size)
    case Opened(chunk) =>
      SetPc(s.(chunks := s.chunks[c := chunk],
               bufs := s.bufs[buf := Buf(c, s.chunks[c].used, pc.size, 0)],
               refs := s.refs[ref := buf]), t, Heading(buf, pc.id))
    case _ => SetPc(s, t, Crashed)
  }

  ghost function HeaderStep(s: Pool, t: Tid): Pool
    requires Enabled(s, WriteHeader(t))
  {
    var pc := s.threads[t].pc;
    var b := s.bufs[pc.buf];
    if b.alloc < Framing.HEADER_SIZE then s.(overrun := true)
    else SetPc(s.(chunks := s.chunks[b.owner := s.chunks[b.owner].Write(b.off, U16(pc.id) + U16(b.alloc))]),
               t, Closing(pc.buf, pc.id))
  }

  ghost function CloseStep(s: Pool, t: Tid): Pool
    requires Enabled(s, CloseBuf(t))
  {
    var buf := s.threads[t].pc.buf;
    var b := s.bufs[buf];
    match s.chunks[b.owner].Close(b.alloc, b.alloc)
    case Closed(chunk) =>
      SetPc(s.(chunks := s.chunks[b.owner := chunk], bufs := s.bufs[buf := b.(write := b.alloc)]), t, Idle)
    case CloseCrash => SetPc(s, t, Crashed)
  }

  ghost function PayloadStep(s: Pool, buf: BufId, at: nat, data: seq<byte>): Pool
    requires Enabled(s, WritePayload(buf, at, data))
  {
    var b := s.bufs[buf];
    s.(chunks := s.chunks[b.owner := s.chunks[b.owner].Write(b.off + at, data)])
  }

  ghost function ShareStep(s: Pool, ref: RefId, copy: RefId): Pool
    requires Enabled(s, Share(ref, copy))
  {
    s.(refs := s.refs[copy := s.refs[ref]])
  }

  ghost function DropStep(s: Pool, t: Tid, ref: RefId): Pool
    requires Enabled(s, Drop(t, ref))
  {
    var b := s.refs[ref];
    var s1 := s.(refs := s.refs - {ref});
    if HasToken(s1.refs, b) then s1
    else Released(s1.(bufs := s1.bufs - {b}), t, s.bufs[b].owner)
  }

  ghost function EndStep(s: Pool, t: Tid): Pool
    requires Enabled(s, EndThread(t))
  {
    var s1 := s.(threads := s.threads[t := s.threads[t].(slot := None)]);
    if s.threads[t].slot.None? then s1 else Released(s1, t, s.threads[t].slot.value)
  }

  ghost function Next(s: Pool, a: Action): Pool
    requires Enabled(s, a)
  {
    match a
    case Begin(t, dataSize, id) => BeginStep(s, t, dataSize, id)
    case Pop(t, newChunk) => PopStep(s, t, newChunk)
    case Install(t) => InstallStep(s, t)
    case PushBack(t) => PushBackStep(s, t)
    case ResetSlot(t) => ResetStep(s, t)
    case Check(t) => CheckStep(s, t)
    case OpenSlot(t, buf, ref) => OpenStep(s, t, buf, ref)
    case WriteHeader(t) => HeaderStep(s, t)
    case CloseBuf(t) => CloseStep(s, t)
    case WritePayload(buf, at, data) => PayloadStep(s, buf, at, data)
    case Share(ref, copy) => ShareStep(s, ref, copy)
    case Drop(t, ref) => DropStep(s, t, ref)
    case EndThread(t) => EndStep(s, t)
  }

  /** A server with n threads and nothing allocated. */
  function Start(n: nat): Pool
  {
    Pool(map[], [], seq(n, _ => Thread(Idle, None, None)), map[], map[], false)
  }

  ghost predicate CanRun(s: Pool, run: seq<Action>)
    decreases |run|
  {
    run == [] || (Enabled(s, run[0]) && CanRun(Next(s, run[0]), run[1..]))
  }

  ghost function After(s: Pool, run: seq<Action>): Pool
    requires CanRun(s, run)
    decreases |run|
  {
    if run == [] then s else After(Next(s, run[0]), run[1..])
  }

  // ----- the invariant -----

  /** The one place of a chunk: free[index], the slot, a local variable or the deleter of thread t,
      or nothing but live buffers. */
  datatype Place = Pooled(index: nat) | InSlot(t: Tid) | InHand(t: Tid) | InDeleter(t: Tid) | Loose

  type Places = map<ChunkId, Place>

  ghost predicate ChunksOk(chunks: map<ChunkId, Chunk>)
  {
    forall c :: c in chunks ==> chunks[c].Valid()
  }

  ghost predicate FreeOk(free: seq<ChunkId>, w: Places)
  {
    && (forall i :: 0 <= i < |free| ==> free[i] in w && w[free[i]] == Pooled(i))
    && (forall c :: c in w && w[c].Pooled? ==> w[c].index < |free| && free[w[c].index] == c)
  }

  predicate KeepsOk(th: Thread, t: Tid, w: Places)
  {
    && (th.slot.Some? ==> th.slot.value in w && w[th.slot.value] == InSlot(t))
    && (th.pc.Installing? ==> th.pc.chunk in w && w[th.pc.chunk] == InHand(t) && th.ret.None?)
    && (th.ret.Some? ==> th.ret.value in w && w[th.ret.value] == InDeleter(t))
  }

  predicate KeptOk(threads: seq<Thread>, c: ChunkId, p: Place)
  {
    match p
    case InSlot(t) => t < |threads| && threads[t].slot == Some(c)
    case InHand(t) => t < |threads| && threads[t].pc.Installing? && threads[t].pc.chunk == c
    case InDeleter(t) => t < |threads| && threads[t].ret == Some(c)
    case _ => true
  }

  ghost predicate ThreadsOk(threads: seq<Thread>, w: Places)
  {
    && (forall t :: 0 <= t < |threads| ==> KeepsOk(threads[t], t, w))
    && (forall c :: c in w ==> KeptOk(threads, c, w[c]))
  }

  ghost predicate Owned(bufs: map<BufId, Buf>, c: ChunkId)
  {
    exists b :: b in bufs && bufs[b].owner == c
  }

  ghost predicate OwnersOk(bufs: map<BufId, Buf>, w: Places)
  {
    && (forall b :: b in bufs ==> bufs[b].owner in w && (w[bufs[b].owner].InSlot? || w[bufs[b].owner].Loose?))
    && (forall c :: c in w && w[c].Loose? ==> Owned(bufs, c))
  }

  predicate Request(size: nat, id: nat) { size < U16_LIMIT && id < U16_LIMIT }

  ghost predicate PcOk(chunks: map<ChunkId, Chunk>, bufs: map<BufId, Buf>, th: Thread)
  {
    match th.pc
    case Idle => true
    case Popping(size, id, _) => Request(size, id)
    case Installing(size, id, _, _) => Request(size, id)
    case Resetting(size, id, _) => Request(size, id) && th.slot.Some? && !Owned(bufs, th.slot.value)
    case Checking(size, id) => Request(size, id) && th.slot.Some?
    case Opening(size, id) =>
      Request(size, id) && th.slot.Some? && th.slot.value in chunks && size <= chunks[th.slot.value].FreeSize()
    case Heading(buf, id) => id < U16_LIMIT && th.slot.Some? && IsLast(chunks, bufs, th.slot.value, buf)
    case Closing(buf, _) =>
      th.slot.Some? && IsLast(chunks, bufs, th.slot.value, buf) && HeaderOk(chunks, bufs[buf])
    case Crashed => false
  }

  /** buf is open, at the end of the used part of chunk c. */
  ghost predicate IsLast(chunks: map<ChunkId, Chunk>, bufs: map<BufId, Buf>, c: ChunkId, buf: BufId)
  {
    && c in chunks && buf in bufs && bufs[buf].owner == c && bufs[buf].write == 0
    && chunks[c].open && bufs[buf].off == chunks[c].used
  }

  ghost predicate PcsOk(chunks: map<ChunkId, Chunk>, bufs: map<BufId, Buf>, threads: seq<Thread>)
  {
    forall t :: 0 <= t < |threads| ==> PcOk(chunks, bufs, threads[t])
  }

  ghost predicate InChunk(chunks: map<ChunkId, Chunk>, buf: Buf)
  {
    buf.owner in chunks && buf.off + buf.alloc <= |chunks[buf.owner].bytes|
  }

  /** The bytes a SendBuffer points at. */
  ghost function Content(chunks: map<ChunkId, Chunk>, buf: Buf): (content: seq<byte>)
    requires InChunk(chunks, buf)
    ensures |content| == buf.alloc
  {
    chunks[buf.owner].Read(buf.off, buf.alloc)
  }

  /** The header of buf carries its size. */
  ghost predicate HeaderOk(chunks: map<ChunkId, Chunk>, buf: Buf)
  {
    InChunk(chunks, buf) && Framing.IsPacket(Content(chunks, buf))
  }

  ghost predicate BufOk(chunks: map<ChunkId, Chunk>, buf: Buf)
  {
    && InChunk(chunks, buf) && buf.alloc < U16_LIMIT
    && (buf.write != 0 ==>
          buf.write == buf.alloc && buf.off + buf.alloc <= chunks[buf.owner].used && HeaderOk(chunks, buf))
  }

  predicate Disjoint(x: Buf, y: Buf)
  {
    x.owner != y.owner || x.off + x.alloc <= y.off || y.off + y.alloc <= x.off
  }

  ghost predicate BufsOk(chunks: map<ChunkId, Chunk>, bufs: map<BufId, Buf>)
  {
    && (forall b :: b in bufs ==> BufOk(chunks, bufs[b]))
    && (forall a, b :: a in bufs && b in bufs && a != b ==> Disjoint(bufs[a], bufs[b]))
  }

  predicate InHeader(th: Thread) { th.pc.Heading? || th.pc.Closing? }

  /** An open chunk is the slot of a thread that is writing a header, and so is the owner of an open buffer. */
  ghost predicate OpenOk(chunks: map<ChunkId, Chunk>, bufs: map<BufId, Buf>, threads: seq<Thread>, w: Places)
  {
    && (forall c :: c in chunks && c in w && chunks[c].open ==>
          w[c].InSlot? && w[c].t < |threads| && InHeader(threads[w[c].t]))
    && (forall b :: b in bufs && bufs[b].write == 0 && bufs[b].owner in w ==>
          var p := w[bufs[b].owner]; p.InSlot? && p.t < |threads| && InHeader(threads[p.t]) && threads[p.t].pc.buf == b)
  }

  ghost predicate RefsOk(refs: map<RefId, BufId>, bufs: map<BufId, Buf>)
  {
    && (forall r :: r in refs ==> refs[r] in bufs)
    && (forall b :: b in bufs ==> HasToken(refs, b))
  }

  ghost predicate HasToken(refs: map<RefId, BufId>, b: BufId) { exists r :: r in refs && refs[r] == b }

  ghost predicate Inv(s: Pool, w: Places)
  {
    && w.Keys == s.chunks.Keys
    && ChunksOk(s.chunks) && FreeOk(s.free, w) && ThreadsOk(s.threads, w) && OwnersOk(s.bufs, w)
    && PcsOk(s.chunks, s.bufs, s.threads) && BufsOk(s.chunks, s.bufs) && OpenOk(s.chunks, s.bufs, s.threads, w)
    && RefsOk(s.refs, s.bufs)
  }

  // ----- every step keeps the invariant -----

  lemma ThreadFacts(s: Pool, w: Places, t: Tid)
    requires Inv(s, w) && t < |s.threads|
    ensures KeepsOk(s.threads[t], t, w) && PcOk(s.chunks, s.bufs, s.threads[t])
  {
  }

  lemma BufFacts(s: Pool, w: Places, b: BufId)
    requires Inv(s, w) && b in s.bufs
    ensures BufOk(s.chunks, s.bufs[b])
  {
  }

  lemma KeptFacts(s: Pool, w: Places)
    requires Inv(s, w)
    ensures forall c :: c in w ==> KeptOk(s.threads, c, w[c])
  {
  }

  /** Moving a thread that is not installing a chunk does not move any chunk. */
  lemma MovePc(threads: seq<Thread>, t: Tid, pc: Pc, w: Places)
    requires ThreadsOk(threads, w) && t < |threads| && !threads[t].pc.Installing? && !pc.Installing?
    ensures ThreadsOk(threads[t := threads[t].(pc := pc)], w)
  {
    var after := threads[t := threads[t].(pc := pc)];
    forall u | 0 <= u < |after| ensures KeepsOk(after[u], u, w) {
      assert KeepsOk(threads[u], u, w);
    }
    forall c | c in w ensures KeptOk(after, c, w[c]) {
      assert KeptOk(threads, c, w[c]);
    }
  }

  lemma PcsReplace(chunks: map<ChunkId, Chunk>, bufs: map<BufId, Buf>, threads: seq<Thread>, t: Tid, th': Thread)
    requires PcsOk(chunks, bufs, threads) && t < |threads|
    requires PcOk(chunks, bufs, threads[t]) ==> PcOk(chunks, bufs, th')
    ensures PcsOk(chunks, bufs, threads[t := th'])
  {
  }

  lemma OpenReplace(chunks: map<ChunkId, Chunk>, bufs: map<BufId, Buf>, threads: seq<Thread>, t: Tid, th': Thread,
                    w: Places)
    requires OpenOk(chunks, bufs, threads, w) && t < |threads| && !InHeader(threads[t]) && !InHeader(th')
    ensures OpenOk(chunks, bufs, threads[t := th'], w)
  {
  }

  lemma BeginStepKeepsInv(s: Pool, w: Places, t: Tid, dataSize: nat, id: nat)
    requires Inv(s, w) && Enabled(s, Begin(t, dataSize, id))
    ensures Inv(BeginStep(s, t, dataSize, id), w)
  {
    hide ChunksOk, FreeOk, ThreadsOk, OwnersOk, PcsOk, BufsOk, OpenOk, RefsOk;
    var s' := BeginStep(s, t, dataSize, id);
    ThreadFacts(s, w, t);
    MovePc(s.threads, t, s'.threads[t].pc, w);
    PcsReplace(s.chunks, s.bufs, s.threads, t, s'.threads[t]);
    OpenReplace(s.chunks, s.bufs, s.threads, t, s'.threads[t], w);
  }

  lemma SlotIsClosed(s: Pool, w: Places, t: Tid)
    requires Inv(s, w) && t < |s.threads| && !InHeader(s.threads[t]) && s.threads[t].slot.Some?
    ensures s.threads[t].slot.value in s.chunks && !s.chunks[s.threads[t].slot.value].open
    ensures s.chunks[s.threads[t].slot.value].Valid()
    ensures forall b :: b in s.bufs && s.bufs[b].owner == s.threads[t].slot.value ==> s.bufs[b].write != 0
  {
    assert KeepsOk(s.threads[t], t, w);
  }

  /** The assertion in Open never fires: only the thread itself could have its slot open. */
  lemma CheckStepKeepsInv(s: Pool, w: Places, t: Tid)
    requires Inv(s, w) && Enabled(s, Check(t))
    ensures Inv(CheckStep(s, t), w)
  {
    hide ChunksOk, FreeOk, ThreadsOk, OwnersOk, PcsOk, BufsOk, OpenOk, RefsOk;
    var s' := CheckStep(s, t);
    ThreadFacts(s, w, t);
    SlotIsClosed(s, w, t);
    MovePc(s.threads, t, s'.threads[t].pc, w);
    PcsReplace(s.chunks, s.bufs, s.threads, t, s'.threads[t]);
    OpenReplace(s.chunks, s.bufs, s.threads, t, s'.threads[t], w);
  }

  /** Writing inside one buffer leaves the bytes of every other buffer, and all cursors, as they were. */
  lemma WriteKeepsOthers(chunks: map<ChunkId, Chunk>, bufs: map<BufId, Buf>, b: BufId, at: nat, data: seq<byte>)
    requires ChunksOk(chunks) && BufsOk(chunks, bufs)
    requires b in bufs && at + |data| <= bufs[b].alloc
    ensures InChunk(chunks, bufs[b])
    ensures var c := bufs[b].owner;
            var chunk := chunks[c].Write(bufs[b].off + at, data);
            var after := chunks[c := chunk];
            && chunk.Valid() && chunk.open == chunks[c].open && chunk.used == chunks[c].used
            && (forall o :: o in bufs ==> InChunk(after, bufs[o]))
            && (forall o :: o in bufs && o != b ==> Content(after, bufs[o]) == Content(chunks, bufs[o]))
            && Content(after, bufs[b])[at..at + |data|] == data
            && Content(after, bufs[b])[..at] == Content(chunks, bufs[b])[..at]
            && Content(after, bufs[b])[at + |data|..] == Content(chunks, bufs[b])[at + |data|..]
  {
    var c := bufs[b].owner;
    assert BufOk(chunks, bufs[b]);
    var chunk := chunks[c].Write(bufs[b].off + at, data);
    var after := chunks[c := chunk];
    forall o | o in bufs
      ensures InChunk(after, bufs[o]) && (o != b ==> Content(after, bufs[o]) == Content(chunks, bufs[o]))
    {
      assert BufOk(chunks, bufs[o]);
      WriteIsLocal(chunks[c], bufs[b].off + at, data, if bufs[o].owner == c then bufs[o].off else 0,
                   if bufs[o].owner == c then bufs[o].alloc else 0);
      if o != b { assert Disjoint(bufs[o], bufs[b]); }
    }
    OwnBytes(chunks[c], bufs[b].off, bufs[b].alloc, at, data);
  }

  /** A write at offset at of the n bytes from off. */
  lemma OwnBytes(c: Chunk, off: nat, n: nat, at: nat, data: seq<byte>)
    requires off + n <= |c.bytes| && at + |data| <= n
    ensures var after := c.Write(off + at, data).Read(off, n);
            && after[at..at + |data|] == data && after[..at] == c.Read(off, n)[..at]
            && after[at + |data|..] == c.Read(off, n)[at + |data|..]
  {
    var end := at + |data|;
    WriteIsLocal(c, off + at, data, off + end, n - end);
    assert c.Write(off + at, data).Read(off, n)[end..] == c.Write(off + at, data).Read(off + end, n - end);
    assert c.Read(off, n)[end..] == c.Read(off + end, n - end);
    WriteIsLocal(c, off + at, data, off, at);
    var w := c.Write(off + at, data);
    assert w.Read(off, n)[at..at + |data|] == w.Read(off + at, |data|);
    assert w.Read(off, n)[..at] == w.Read(off, at);
    assert c.Read(off, n)[..at] == c.Read(off, at);
  }

  /** What a thread knows survives when only bytes outside its finished header change. */
  lemma SamePc(chunks: map<ChunkId, Chunk>, after: map<ChunkId, Chunk>, bufs: map<BufId, Buf>, th: Thread)
    requires PcOk(chunks, bufs, th) && after.Keys == chunks.Keys
    requires forall c :: c in chunks ==> after[c].open == chunks[c].open && after[c].used == chunks[c].used
    requires forall b :: b in bufs && HeaderOk(chunks, bufs[b]) ==> HeaderOk(after, bufs[b])
    ensures PcOk(after, bufs, th)
  {
  }

  lemma SamePcs(chunks: map<ChunkId, Chunk>, after: map<ChunkId, Chunk>, bufs: map<BufId, Buf>, threads: seq<Thread>)
    requires PcsOk(chunks, bufs, threads) && after.Keys == chunks.Keys
    requires forall c :: c in chunks ==> after[c].open == chunks[c].open && after[c].used == chunks[c].used
    requires forall b :: b in bufs && HeaderOk(chunks, bufs[b]) ==> HeaderOk(after, bufs[b])
    ensures PcsOk(after, bufs, threads)
  {
    hide PcOk;
    forall t | 0 <= t < |threads| ensures PcOk(after, bufs, threads[t]) {
      SamePc(chunks, after, bufs, threads[t]);
    }
  }

  lemma PayloadStepKeepsInv(s: Pool, w: Places, buf: BufId, at: nat, data: seq<byte>)
    requires Inv(s, w) && Enabled(s, WritePayload(buf, at, data))
    ensures Inv(PayloadStep(s, buf, at, data), w)
  {
    hide ChunksOk, FreeOk, ThreadsOk, OwnersOk, PcsOk, BufsOk, OpenOk, RefsOk;
    var s' := PayloadStep(s, buf, at, data);
    PayloadKeepsBufs(s.chunks, s.bufs, buf, at, data);
    SamePcs(s.chunks, s'.chunks, s.bufs, s.threads);
    SameOpen(s.chunks, s'.chunks, s.bufs, s.threads, w);
  }

  lemma PayloadKeepsBufs(chunks: map<ChunkId, Chunk>, bufs: map<BufId, Buf>, buf: BufId, at: nat, data: seq<byte>)
    requires ChunksOk(chunks) && BufsOk(chunks, bufs) && buf in bufs
    requires Framing.HEADER_SIZE <= at && at + |data| <= bufs[buf].write <= bufs[buf].alloc
    ensures InChunk(chunks, bufs[buf])
    ensures var c := bufs[buf].owner;
            var after := chunks[c := chunks[c].Write(bufs[buf].off + at, data)];
            && ChunksOk(after) && BufsOk(after, bufs)
            && after[c].open == chunks[c].open && after[c].used == chunks[c].used
            && (forall b :: b in bufs && HeaderOk(chunks, bufs[b]) ==> HeaderOk(after, bufs[b]))
  {
    WriteKeepsOthers(chunks, bufs, buf, at, data);
    var c := bufs[buf].owner;
    var after := chunks[c := chunks[c].Write(bufs[buf].off + at, data)];
    assert HeaderOk(after, bufs[buf]) by {
      var x, y := Content(chunks, bufs[buf]), Content(after, bufs[buf]);
      assert BufOk(chunks, bufs[buf]);
      assert x[..at][2] == y[..at][2] && x[..at][3] == y[..at][3];
    }
    forall b | b in bufs ensures BufOk(after, bufs[b]) {
      assert BufOk(chunks, bufs[b]);
    }
  }

  lemma HeaderStepKeepsInv(s: Pool, w: Places, t: Tid)
    requires Inv(s, w) && Enabled(s, WriteHeader(t))
    ensures Inv(HeaderStep(s, t), w)
  {
    hide ChunksOk, FreeOk, ThreadsOk, OwnersOk, PcsOk, BufsOk, OpenOk, RefsOk;
    var s' := HeaderStep(s, t);
    var buf, id := s.threads[t].pc.buf, s.threads[t].pc.id;
    if s.bufs[buf].alloc < Framing.HEADER_SIZE { return; }
    ThreadFacts(s, w, t);
    HeaderKeepsBufs(s.chunks, s.bufs, buf, id);
    SamePcs(s.chunks, s'.chunks, s.bufs, s.threads);
    PcsReplace(s'.chunks, s.bufs, s.threads, t, s'.threads[t]);
    MovePc(s.threads, t, Closing(buf, id), w);
    SameOpen(s.chunks, s'.chunks, s.bufs, s.threads, w);
    HeaderToClosing(s'.chunks, s.bufs, s.threads, t, w);
  }

  lemma HeaderKeepsBufs(chunks: map<ChunkId, Chunk>, bufs: map<BufId, Buf>, buf: BufId, id: nat)
    requires ChunksOk(chunks) && BufsOk(chunks, bufs) && buf in bufs && id < U16_LIMIT
    requires Framing.HEADER_SIZE <= bufs[buf].alloc < U16_LIMIT
    ensures InChunk(chunks, bufs[buf])
    ensures var c := bufs[buf].owner;
            var after := chunks[c := chunks[c].Write(bufs[buf].off, U16(id) + U16(bufs[buf].alloc))];
            && ChunksOk(after) && BufsOk(after, bufs) && HeaderOk(after, bufs[buf])
            && after[c].open == chunks[c].open && after[c].used == chunks[c].used
            && (forall b :: b in bufs && HeaderOk(chunks, bufs[b]) ==> HeaderOk(after, bufs[b]))
  {
    var header := U16(id) + U16(bufs[buf].alloc);
    WriteKeepsOthers(chunks, bufs, buf, 0, header);
    var c := bufs[buf].owner;
    var after := chunks[c := chunks[c].Write(bufs[buf].off, header)];
    assert HeaderOk(after, bufs[buf]) by {
      var y := Content(after, bufs[buf]);
      assert y[0..4][2] == y[2] && y[0..4][3] == y[3];
    }
    forall b | b in bufs ensures BufOk(after, bufs[b]) {
      assert BufOk(chunks, bufs[b]);
    }
  }

  lemma SameOpen(chunks: map<ChunkId, Chunk>, after: map<ChunkId, Chunk>, bufs: map<BufId, Buf>, threads: seq<Thread>,
                 w: Places)
    requires OpenOk(chunks, bufs, threads, w) && after.Keys == chunks.Keys
    requires forall c :: c in chunks ==> after[c].open == chunks[c].open
    ensures OpenOk(after, bufs, threads, w)
  {
  }

  lemma HeaderToClosing(chunks: map<ChunkId, Chunk>, bufs: map<BufId, Buf>, threads: seq<Thread>, t: Tid, w: Places)
    requires OpenOk(chunks, bufs, threads, w) && t < |threads| && threads[t].pc.Heading?
    ensures OpenOk(chunks, bufs, threads[t := threads[t].(pc := Closing(threads[t].pc.buf, threads[t].pc.id))], w)
  {
  }

  lemma PcsAfter(chunks: map<ChunkId, Chunk>, bufs: map<BufId, Buf>, threads: seq<Thread>, t: Tid, th: Thread)
    requires t < |threads| && PcOk(chunks, bufs, th)
    requires forall u :: 0 <= u < |threads| && u != t ==> PcOk(chunks, bufs, threads[u])
    ensures PcsOk(chunks, bufs, threads[t := th])
  {
  }

  /** A step of thread t on its own slot c leaves what the other threads know. */
  lemma OtherThreads(s: Pool, chunks: map<ChunkId, Chunk>, bufs: map<BufId, Buf>, t: Tid, c: ChunkId, w: Places)
    requires ThreadsOk(s.threads, w) && PcsOk(s.chunks, s.bufs, s.threads)
    requires t < |s.threads| && s.threads[t].slot == Some(c)
    requires chunks.Keys == s.chunks.Keys && s.bufs.Keys <= bufs.Keys
    requires forall o :: o in chunks && o != c ==> chunks[o] == s.chunks[o]
    requires forall b :: b in s.bufs ==> bufs[b].owner == s.bufs[b].owner
    requires forall b :: b in s.bufs && s.bufs[b].owner != c ==> bufs[b] == s.bufs[b]
    requires forall b :: b in bufs && b !in s.bufs ==> bufs[b].owner == c
    ensures forall u :: 0 <= u < |s.threads| && u != t ==> PcOk(chunks, bufs, s.threads[u])
  {
    forall u | 0 <= u < |s.threads| && u != t ensures PcOk(chunks, bufs, s.threads[u]) {
      assert KeepsOk(s.threads[u], u, w) && KeepsOk(s.threads[t], t, w);
      OtherThread(s.chunks, s.bufs, chunks, bufs, c, s.threads[u]);
    }
  }

  lemma OtherThread(chunks: map<ChunkId, Chunk>, bufs: map<BufId, Buf>,
                    chunks': map<ChunkId, Chunk>, bufs': map<BufId, Buf>, c: ChunkId, th: Thread)
    requires PcOk(chunks, bufs, th) && th.slot != Some(c)
    requires chunks'.Keys == chunks.Keys && bufs.Keys <= bufs'.Keys
    requires forall o :: o in chunks && o != c ==> chunks'[o] == chunks[o]
    requires forall b :: b in bufs && bufs[b].owner != c ==> bufs'[b] == bufs[b]
    requires forall b :: b in bufs && bufs[b].owner == c ==> bufs'[b].owner == c
    requires forall b :: b in bufs' && b !in bufs ==> bufs'[b].owner == c
    ensures PcOk(chunks', bufs', th)
  {
  }

  lemma ResetKeepsBufs(chunks: map<ChunkId, Chunk>, bufs: map<BufId, Buf>, c: ChunkId)
    requires ChunksOk(chunks) && BufsOk(chunks, bufs) && c in chunks && !Owned(bufs, c)
    ensures ChunksOk(chunks[c := chunks[c].Reset()]) && BufsOk(chunks[c := chunks[c].Reset()], bufs)
  {
    forall b | b in bufs ensures BufOk(chunks[c := chunks[c].Reset()], bufs[b]) {
      assert BufOk(chunks, bufs[b]) && bufs[b].owner != c;
    }
  }

  lemma ResetKeepsOpen(chunks: map<ChunkId, Chunk>, bufs: map<BufId, Buf>, threads: seq<Thread>, c: ChunkId, w: Places)
    requires OpenOk(chunks, bufs, threads, w) && c in chunks
    ensures OpenOk(chunks[c := chunks[c].Reset()], bufs, threads, w)
  {
  }

  lemma ResetStepKeepsInv(s: Pool, w: Places, t: Tid)
    requires Inv(s, w) && Enabled(s, ResetSlot(t))
    ensures Inv(ResetStep(s, t), w)
  {
    hide ChunksOk, FreeOk, ThreadsOk, OwnersOk, PcsOk, BufsOk, OpenOk, RefsOk;
    var s' := ResetStep(s, t);
    var c := s.threads[t].slot.value;
    ThreadFacts(s, w, t);
    ResetKeepsBufs(s.chunks, s.bufs, c);
    OtherThreads(s, s'.chunks, s.bufs, t, c, w);
    PcsAfter(s'.chunks, s.bufs, s.threads, t, s'.threads[t]);
    MovePc(s.threads, t, s'.threads[t].pc, w);
    ResetKeepsOpen(s.chunks, s.bufs, s.threads, c, w);
    OpenReplace(s'.chunks, s.bufs, s.threads, t, s'.threads[t], w);
  }

  /** A thread about to open has room in its slot, which is closed, so no assertion fires and no null is returned. */
  lemma OpenSucceeds(s: Pool, w: Places, t: Tid)
    requires Inv(s, w) && t < |s.threads| && s.threads[t].pc.Opening? && SlotInUse(s, t)
    ensures var c := s.threads[t].slot.value;
            && c in w && w[c] == InSlot(t) && !s.chunks[c].open
            && Request(s.threads[t].pc.size, s.threads[t].pc.id)
            && s.chunks[c].used + s.threads[t].pc.size <= CHUNK_SIZE
            && s.chunks[c].Open(s.threads[t].pc.size) == Opened(s.chunks[c].(open := true))
            && (forall b :: b in s.bufs && s.bufs[b].owner == c ==> s.bufs[b].write != 0)
  {
    hide Inv;
    ThreadFacts(s, w, t);
    SlotIsClosed(s, w, t);
  }

  lemma OpenStepKeepsInv(s: Pool, w: Places, t: Tid, buf: BufId, ref: RefId)
    requires Inv(s, w) && Enabled(s, OpenSlot(t, buf, ref))
    ensures Inv(OpenStep(s, t, buf, ref), w)
  {
    hide ChunksOk, FreeOk, ThreadsOk, OwnersOk, PcsOk, BufsOk, OpenOk, RefsOk;
    var c, pc := s.threads[t].slot.value, s.threads[t].pc;
    OpenSucceeds(s, w, t);
    var b := Buf(c, s.chunks[c].used, pc.size, 0);
    var chunks, bufs := s.chunks[c := s.chunks[c].(open := true)], s.bufs[buf := b];
    var s' := OpenStep(s, t, buf, ref);
    assert s' == SetPc(s.(chunks := chunks, bufs := bufs, refs := s.refs[ref := buf]), t, Heading(buf, pc.id));
    OtherThreads(s, chunks, bufs, t, c, w);
    PcsAfter(chunks, bufs, s.threads, t, s.threads[t].(pc := Heading(buf, pc.id)));
    MovePc(s.threads, t, Heading(buf, pc.id), w);
    OpenKeepsBufs(s.chunks, s.bufs, c, buf, b);
    NewBufKeepsOwners(s.bufs, s.refs, buf, b, ref, w);
    OpenKeepsOpen(s.chunks, s.bufs, s.threads, w, c, buf, b, t, pc.id);
  }

  lemma OpenKeepsBufs(chunks: map<ChunkId, Chunk>, bufs: map<BufId, Buf>, c: ChunkId, buf: BufId, b: Buf)
    requires ChunksOk(chunks) && BufsOk(chunks, bufs) && c in chunks && buf !in bufs
    requires b.owner == c && b.off == chunks[c].used && b.write == 0 && b.alloc < U16_LIMIT
    requires b.off + b.alloc <= CHUNK_SIZE
    requires forall o :: o in bufs && bufs[o].owner == c ==> bufs[o].write != 0
    ensures var after := chunks[c := chunks[c].(open := true)];
            ChunksOk(after) && BufsOk(after, bufs[buf := b])
  {
    var after := chunks[c := chunks[c].(open := true)];
    forall o | o in bufs ensures BufOk(after, bufs[o]) && Disjoint(bufs[o], b) && Disjoint(b, bufs[o]) {
      assert BufOk(chunks, bufs[o]);
    }
  }

  lemma NewBufKeepsOwners(bufs: map<BufId, Buf>, refs: map<RefId, BufId>, buf: BufId, b: Buf, ref: RefId, w: Places)
    requires OwnersOk(bufs, w) && RefsOk(refs, bufs) && buf !in bufs && ref !in refs
    requires b.owner in w && w[b.owner].InSlot?
    ensures OwnersOk(bufs[buf := b], w) && RefsOk(refs[ref := buf], bufs[buf := b])
  {
    forall c | c in w && w[c].Loose? ensures Owned(bufs[buf := b], c) {
      var o :| o in bufs && bufs[o].owner == c;
      assert bufs[buf := b][o].owner == c;
    }
    var refs' := refs[ref := buf];
    forall o | o in bufs[buf := b] ensures HasToken(refs', o) {
      if o == buf {
        assert refs'[ref] == buf;
      } else {
        var r :| r in refs && refs[r] == o;
        assert refs'[r] == o;
      }
    }
  }

  lemma OpenKeepsOpen(chunks: map<ChunkId, Chunk>, bufs: map<BufId, Buf>, threads: seq<Thread>, w: Places,
                      c: ChunkId, buf: BufId, b: Buf, t: Tid, id: nat)
    requires OpenOk(chunks, bufs, threads, w) && c in chunks && c in w && w[c] == InSlot(t) && t < |threads|
    requires threads[t].pc.Opening? && b.owner == c && buf !in bufs
    ensures OpenOk(chunks[c := chunks[c].(open := true)], bufs[buf := b],
                   threads[t := threads[t].(pc := Heading(buf, id))], w)
  {
  }

  /** Closing an open buffer passes both assertions. */
  lemma CloseSucceeds(s: Pool, w: Places, t: Tid)
    requires Inv(s, w) && Enabled(s, CloseBuf(t))
    ensures var b := s.bufs[s.threads[t].pc.buf];
            && b.owner in w && w[b.owner] == InSlot(t) && b.write == 0 && b.off == s.chunks[b.owner].used
            && s.threads[t].slot == Some(b.owner) && HeaderOk(s.chunks, b) && b.alloc < U16_LIMIT
            && s.chunks[b.owner].Close(b.alloc, b.alloc)
               == Closed(s.chunks[b.owner].(open := false, used := b.off + b.alloc))
  {
    hide Inv;
    ThreadFacts(s, w, t);
    BufFacts(s, w, s.threads[t].pc.buf);
  }

  lemma CloseStepKeepsInv(s: Pool, w: Places, t: Tid)
    requires Inv(s, w) && Enabled(s, CloseBuf(t))
    ensures Inv(CloseStep(s, t), w)
  {
    hide ChunksOk, FreeOk, ThreadsOk, OwnersOk, PcsOk, BufsOk, OpenOk, RefsOk;
    var buf := s.threads[t].pc.buf;
    var b := s.bufs[buf];
    CloseSucceeds(s, w, t);
    var chunk := s.chunks[b.owner].(open := false, used := b.off + b.alloc);
    var chunks, bufs := s.chunks[b.owner := chunk], s.bufs[buf := b.(write := b.alloc)];
    assert CloseStep(s, t) == SetPc(s.(chunks := chunks, bufs := bufs), t, Idle);
    CloseKeepsThreads(s, w, t, chunk);
    CloseKeepsBufs(s.chunks, s.bufs, buf);
    SameOwners(s.bufs, bufs, s.refs, w);
  }

  lemma CloseKeepsThreads(s: Pool, w: Places, t: Tid, chunk: Chunk)
    requires Inv(s, w) && Enabled(s, CloseBuf(t)) && !chunk.open
    ensures var buf := s.threads[t].pc.buf;
            var b := s.bufs[buf];
            var chunks, bufs := s.chunks[b.owner := chunk], s.bufs[buf := b.(write := b.alloc)];
            var threads := s.threads[t := s.threads[t].(pc := Idle)];
            ThreadsOk(threads, w) && PcsOk(chunks, bufs, threads) && OpenOk(chunks, bufs, threads, w)
  {
    hide ChunksOk, FreeOk, ThreadsOk, OwnersOk, PcsOk, BufsOk, OpenOk, RefsOk;
    CloseSucceeds(s, w, t);
    ThreadFacts(s, w, t);
    var buf := s.threads[t].pc.buf;
    var b := s.bufs[buf];
    var chunks, bufs := s.chunks[b.owner := chunk], s.bufs[buf := b.(write := b.alloc)];
    OtherThreads(s, chunks, bufs, t, b.owner, w);
    PcsAfter(chunks, bufs, s.threads, t, s.threads[t].(pc := Idle));
    MovePc(s.threads, t, Idle, w);
    CloseKeepsOpen(s.chunks, s.bufs, s.threads, w, buf, t, chunk);
  }

  lemma SameOwners(bufs: map<BufId, Buf>, after: map<BufId, Buf>, refs: map<RefId, BufId>, w: Places)
    requires OwnersOk(bufs, w) && RefsOk(refs, bufs) && after.Keys == bufs.Keys
    requires forall b :: b in bufs ==> after[b].owner == bufs[b].owner
    ensures OwnersOk(after, w) && RefsOk(refs, after)
  {
    forall c | c in w && w[c].Loose? ensures Owned(after, c) {
      var b :| b in bufs && bufs[b].owner == c;
      assert after[b].owner == c;
    }
  }

  lemma CloseKeepsBufs(chunks: map<ChunkId, Chunk>, bufs: map<BufId, Buf>, buf: BufId)
    requires ChunksOk(chunks) && BufsOk(chunks, bufs) && buf in bufs
    requires var b := bufs[buf]; HeaderOk(chunks, b) && b.write == 0 && b.off == chunks[b.owner].used
    ensures var b := bufs[buf];
            var after := chunks[b.owner := chunks[b.owner].(open := false, used := b.off + b.alloc)];
            ChunksOk(after) && BufsOk(after, bufs[buf := b.(write := b.alloc)])
  {
    var b := bufs[buf];
    var after := chunks[b.owner := chunks[b.owner].(open := false, used := b.off + b.alloc)];
    assert BufOk(chunks, b);
    forall o | o in bufs && o != buf ensures BufOk(after, bufs[o]) {
      assert BufOk(chunks, bufs[o]);
    }
    assert Content(after, b) == Content(chunks, b);
  }

  lemma CloseKeepsOpen(chunks: map<ChunkId, Chunk>, bufs: map<BufId, Buf>, threads: seq<Thread>, w: Places,
                       buf: BufId, t: Tid, chunk: Chunk)
    requires OpenOk(chunks, bufs, threads, w) && ThreadsOk(threads, w) && buf in bufs && t < |threads|
    requires var c := bufs[buf].owner; c in chunks && c in w && w[c] == InSlot(t) && threads[t].slot == Some(c)
    requires threads[t].pc.Closing? && threads[t].pc.buf == buf && !chunk.open && bufs[buf].alloc != 0
    ensures OpenOk(chunks[bufs[buf].owner := chunk], bufs[buf := bufs[buf].(write := bufs[buf].alloc)],
                   threads[t := threads[t].(pc := Idle)], w)
  {
    var c := bufs[buf].owner;
    forall o | o in chunks && o in w && o != c && chunks[o].open ensures w[o] != InSlot(t) {
      assert KeptOk(threads, o, w[o]);
    }
    forall o | o in bufs && o != buf && bufs[o].write == 0 && bufs[o].owner in w ensures w[bufs[o].owner] != InSlot(t) {
    }
  }

  lemma ShareStepKeepsInv(s: Pool, w: Places, ref: RefId, copy: RefId)
    requires Inv(s, w) && Enabled(s, Share(ref, copy))
    ensures Inv(ShareStep(s, ref, copy), w)
  {
    var s' := ShareStep(s, ref, copy);
    forall b | b in s.bufs ensures HasToken(s'.refs, b) {
      var r :| r in s.refs && s.refs[r] == b;
      assert s'.refs[r] == b;
    }
  }

  // ----- the steps that move chunks -----

  ghost function PlacesAfterPop(s: Pool, w: Places, t: Tid, newChunk: ChunkId): Places
  {
    w[(if s.free != [] then s.free[|s.free| - 1] else newChunk) := InHand(t)]
  }

  lemma PopStepKeepsInv(s: Pool, w: Places, t: Tid, newChunk: ChunkId)
    requires Inv(s, w) && Enabled(s, Pop(t, newChunk))
    ensures Inv(PopStep(s, t, newChunk), PlacesAfterPop(s, w, t, newChunk))
  {
    hide ChunksOk, FreeOk, ThreadsOk, OwnersOk, PcsOk, BufsOk, OpenOk, RefsOk;
    var s' := PopStep(s, t, newChunk);
    var c := if s.free != [] then s.free[|s.free| - 1] else newChunk;
    var th' := s.threads[t].(pc := s'.threads[t].pc);
    assert c in w.Keys <==> c in s.chunks.Keys;
    PopKeepsFree(s.free, w, c, t);
    TakeUp(s.threads, t, th'.pc, c, w);
    NewChunkKeepsBufs(s.chunks, s'.chunks, s.bufs, c, w, t);
    PopKeepsThreads(s.chunks, s'.chunks, s.bufs, s.threads, t, th', w, c);
  }

  lemma PopKeepsFree(free: seq<ChunkId>, w: Places, c: ChunkId, t: Tid)
    requires FreeOk(free, w) && (if free != [] then c == free[|free| - 1] else c !in w)
    ensures FreeOk(if free != [] then free[..|free| - 1] else [], w[c := InHand(t)])
    ensures c in w ==> w[c].Pooled?
    ensures free != [] ==> c in w
  {
  }

  lemma NewChunkKeepsBufs(chunks: map<ChunkId, Chunk>, after: map<ChunkId, Chunk>, bufs: map<BufId, Buf>, c: ChunkId,
                          w: Places, t: Tid)
    requires ChunksOk(chunks) && BufsOk(chunks, bufs) && OwnersOk(bufs, w) && w.Keys == chunks.Keys
    requires (after == chunks && c in chunks) || (after == chunks[c := NewChunk()] && c !in chunks)
    requires c in w ==> w[c].Pooled?
    ensures ChunksOk(after) && BufsOk(after, bufs) && OwnersOk(bufs, w[c := InHand(t)])
  {
    forall b | b in bufs ensures BufOk(after, bufs[b]) {
      assert BufOk(chunks, bufs[b]) && bufs[b].owner in w && bufs[b].owner != c;
    }
  }

  lemma PopKeepsThreads(chunks: map<ChunkId, Chunk>, after: map<ChunkId, Chunk>, bufs: map<BufId, Buf>,
                        threads: seq<Thread>, t: Tid, th': Thread, w: Places, c: ChunkId)
    requires PcsOk(chunks, bufs, threads) && OpenOk(chunks, bufs, threads, w) && t < |threads|
    requires threads[t].pc.Popping? && w.Keys == chunks.Keys && OwnersOk(bufs, w)
    requires th' == threads[t].(pc := Installing(threads[t].pc.size, threads[t].pc.id, threads[t].pc.first, c))
    requires (after == chunks && c in chunks) || (after == chunks[c := NewChunk()] && c !in chunks)
    requires c in w ==> w[c].Pooled?
    ensures PcsOk(after, bufs, threads[t := th']) && OpenOk(after, bufs, threads[t := th'], w[c := InHand(t)])
  {
    var threads' := threads[t := th'];
    forall u | 0 <= u < |threads'| ensures PcOk(after, bufs, threads'[u]) {
      assert PcOk(chunks, bufs, threads[u]);
    }
  }

  /** Thread t takes chunk c, kept by no thread, into its local variable. */
  lemma TakeUp(threads: seq<Thread>, t: Tid, pc: Pc, c: ChunkId, w: Places)
    requires ThreadsOk(threads, w) && t < |threads| && threads[t].pc.Popping? && threads[t].ret.None?
    requires pc.Installing? && pc.chunk == c && (c in w ==> w[c].Pooled?)
    ensures ThreadsOk(threads[t := threads[t].(pc := pc)], w[c := InHand(t)])
  {
    var after, w' := threads[t := threads[t].(pc := pc)], w[c := InHand(t)];
    forall u | 0 <= u < |after| ensures KeepsOk(after[u], u, w') {
      assert KeepsOk(threads[u], u, w);
    }
    forall o | o in w' ensures KeptOk(after, o, w'[o]) {
      if o != c { assert KeptOk(threads, o, w[o]); }
    }
  }

  /** Thread t ends up keeping th' instead. Only places of chunks no other thread keeps change. */
  lemma Replace(chunks: map<ChunkId, Chunk>, bufs: map<BufId, Buf>, threads: seq<Thread>, t: Tid, th': Thread,
                w: Places, w': Places)
    requires ThreadsOk(threads, w) && OpenOk(chunks, bufs, threads, w) && t < |threads|
    requires w.Keys == w'.Keys && KeepsOk(th', t, w')
    requires th'.pc == threads[t].pc || (!InHeader(threads[t]) && !InHeader(th'))
    requires forall c :: c in w && w[c] != w'[c] ==>
      && (w[c].Loose? || w[c].Pooled? || w[c].t == t)
      && (w'[c].Loose? || w'[c].Pooled? || (w'[c].t == t && KeptOk(threads[t := th'], c, w'[c])))
      && (w[c].InSlot? ==> !InHeader(threads[t]))
    requires forall c :: c in w && w[c] == w'[c] && !w[c].Loose? && !w[c].Pooled? && w[c].t == t
                         ==> KeptOk(threads[t := th'], c, w[c])
    ensures ThreadsOk(threads[t := th'], w') && OpenOk(chunks, bufs, threads[t := th'], w')
  {
    var after := threads[t := th'];
    forall u | 0 <= u < |after| ensures KeepsOk(after[u], u, w') {
      assert KeepsOk(threads[u], u, w);
    }
    forall c | c in w' ensures KeptOk(after, c, w'[c]) {
      assert KeptOk(threads, c, w[c]);
    }
  }

  lemma PushBackStepKeepsInv(s: Pool, w: Places, t: Tid)
    requires Inv(s, w) && Enabled(s, PushBack(t))
    ensures Inv(PushBackStep(s, t), w[s.threads[t].ret.value := Pooled(|s.free|)])
  {
    hide ChunksOk, FreeOk, ThreadsOk, OwnersOk, PcsOk, BufsOk, OpenOk, RefsOk;
    var th' := s.threads[t].(ret := None);
    var c := s.threads[t].ret.value;
    var w' := w[c := Pooled(|s.free|)];
    ThreadFacts(s, w, t);
    KeptFacts(s, w);
    PushBackOwner(s.bufs, w, c, |s.free|);
    Replace(s.chunks, s.bufs, s.threads, t, th', w, w');
    PcsReplace(s.chunks, s.bufs, s.threads, t, th');
    PushKeepsFree(s.free, w, c);
  }

  lemma PushBackOwner(bufs: map<BufId, Buf>, w: Places, c: ChunkId, i: nat)
    requires OwnersOk(bufs, w) && c in w && w[c].InDeleter?
    ensures OwnersOk(bufs, w[c := Pooled(i)])
  {
  }

  lemma PushKeepsFree(free: seq<ChunkId>, w: Places, c: ChunkId)
    requires FreeOk(free, w) && c in w && !w[c].Pooled?
    ensures FreeOk(free + [c], w[c := Pooled(|free|)])
  {
  }

  /** All of Inv except that chunk c, which has just lost a referrer, may have none left. */
  ghost predicate InvBut(s: Pool, w: Places, c: ChunkId)
  {
    && w.Keys == s.chunks.Keys && c in w && w[c] == Loose
    && ChunksOk(s.chunks) && FreeOk(s.free, w) && ThreadsOk(s.threads, w)
    && (forall b :: b in s.bufs ==> s.bufs[b].owner in w && (w[s.bufs[b].owner].InSlot? || w[s.bufs[b].owner].Loose?))
    && (forall o :: o in w && w[o].Loose? && o != c ==> Owned(s.bufs, o))
    && PcsOk(s.chunks, s.bufs, s.threads) && BufsOk(s.chunks, s.bufs) && OpenOk(s.chunks, s.bufs, s.threads, w)
    && RefsOk(s.refs, s.bufs)
  }

  ghost function PlacesAfterRelease(s: Pool, w: Places, t: Tid, c: ChunkId): Places
  {
    if Owned(s.bufs, c) then w[c := Loose] else w[c := InDeleter(t)]
  }

  /** The deleter runs exactly when no live buffer is left, and then the thread running it holds the chunk. */
  lemma ReleasedKeepsInv(s: Pool, w: Places, t: Tid, c: ChunkId)
    requires InvBut(s, w, c) && t < |s.threads| && s.threads[t].ret.None? && !s.threads[t].pc.Installing?
    ensures Inv(Released(s, t, c), PlacesAfterRelease(s, w, t, c))
  {
    hide ChunksOk, FreeOk, ThreadsOk, PcsOk, BufsOk, OpenOk, RefsOk, OwnersOk;
    assert w[c := Loose] == w;
    NobodyRefers(s.threads, w, c);
    if Owned(s.bufs, c) {
      AllOwned(s.bufs, w, c);
    } else {
      var th', w' := s.threads[t].(ret := Some(c)), w[c := InDeleter(t)];
      KeepersFacts(s.threads, w, t);
      Replace(s.chunks, s.bufs, s.threads, t, th', w, w');
      PcsReplace(s.chunks, s.bufs, s.threads, t, th');
      Disowned(s.bufs, w, c, InDeleter(t));
      DeleterKeepsFree(s.free, w, c, t);
    }
  }

  lemma AllOwned(bufs: map<BufId, Buf>, w: Places, c: ChunkId)
    requires forall b :: b in bufs ==> bufs[b].owner in w && (w[bufs[b].owner].InSlot? || w[bufs[b].owner].Loose?)
    requires forall o :: o in w && w[o].Loose? && o != c ==> Owned(bufs, o)
    requires Owned(bufs, c)
    ensures OwnersOk(bufs, w)
  {
  }

  lemma KeepersFacts(threads: seq<Thread>, w: Places, t: Tid)
    requires ThreadsOk(threads, w) && t < |threads|
    ensures KeepsOk(threads[t], t, w) && (forall c :: c in w ==> KeptOk(threads, c, w[c]))
  {
  }

  lemma DeleterKeepsFree(free: seq<ChunkId>, w: Places, c: ChunkId, t: Tid)
    requires FreeOk(free, w) && c in w && w[c].Loose?
    ensures FreeOk(free, w[c := InDeleter(t)])
  {
  }

  lemma NobodyRefers(threads: seq<Thread>, w: Places, c: ChunkId)
    requires ThreadsOk(threads, w) && c in w && w[c] == Loose
    ensures forall u :: 0 <= u < |threads| ==> !Refers(threads[u], c)
  {
    forall u | 0 <= u < |threads| ensures !Refers(threads[u], c) {
      assert KeepsOk(threads[u], u, w);
    }
  }

  lemma Disowned(bufs: map<BufId, Buf>, w: Places, c: ChunkId, p: Place)
    requires forall b :: b in bufs ==> bufs[b].owner in w && (w[bufs[b].owner].InSlot? || w[bufs[b].owner].Loose?)
    requires forall o :: o in w && w[o].Loose? && o != c ==> Owned(bufs, o)
    requires !Owned(bufs, c) && !p.Loose?
    ensures OwnersOk(bufs, w[c := p])
  {
  }

  ghost function PlacesAfterInstall(s: Pool, w: Places, t: Tid): Places
    requires Enabled(s, Install(t))
  {
    var th := s.threads[t];
    var w1 := w[th.pc.chunk := InSlot(t)];
    if th.slot.None? then w1 else PlacesAfterRelease(s, w1, t, th.slot.value)
  }

  lemma InstallStepKeepsInv(s: Pool, w: Places, t: Tid)
    requires Inv(s, w) && Enabled(s, Install(t))
    ensures Inv(InstallStep(s, t), PlacesAfterInstall(s, w, t))
  {
    hide ChunksOk, FreeOk, ThreadsOk, OwnersOk, PcsOk, BufsOk, OpenOk, RefsOk;
    var th := s.threads[t];
    var c := th.pc.chunk;
    var th' := Thread(Resetting(th.pc.size, th.pc.id, th.pc.first), Some(c), None);
    var s1 := s.(threads := s.threads[t := th']);
    var w1 := w[c := InSlot(t)];
    InstallKeepsThreads(s, w, t, th');
    if th.slot.Some? {
      var o := th.slot.value;
      assert KeepsOk(th, t, w);
      ReleasedKeepsInv(s1, w1[o := Loose], t, o);
      assert PlacesAfterRelease(s1, w1[o := Loose], t, o) == PlacesAfterRelease(s, w1, t, o);
    }
  }

  lemma InstallKeepsThreads(s: Pool, w: Places, t: Tid, th': Thread)
    requires Inv(s, w) && Enabled(s, Install(t))
    requires var th := s.threads[t];
             th' == Thread(Resetting(th.pc.size, th.pc.id, th.pc.first), Some(th.pc.chunk), None)
    ensures var th := s.threads[t];
            var w1 := w[th.pc.chunk := InSlot(t)];
            var w2 := if th.slot.Some? then w1[th.slot.value := Loose] else w1;
            var threads := s.threads[t := th'];
            && KeepsOk(th, t, w)
            && ThreadsOk(threads, w2) && OpenOk(s.chunks, s.bufs, threads, w2) && PcsOk(s.chunks, s.bufs, threads)
            && FreeOk(s.free, w2) && w2.Keys == w.Keys && InstallOwners(s.bufs, th, w2)
            && (th.slot.None? ==> OwnersOk(s.bufs, w2))
  {
    hide ChunksOk, FreeOk, OwnersOk, PcsOk, BufsOk, OpenOk, RefsOk;
    var th := s.threads[t];
    assert KeepsOk(th, t, w);
    var c := th.pc.chunk;
    var w1 := w[c := InSlot(t)];
    var w2 := if th.slot.Some? then w1[th.slot.value := Loose] else w1;
    forall o | o in w ensures KeptOk(s.threads, o, w[o]) {}
    Replace(s.chunks, s.bufs, s.threads, t, th', w, w2);
    InstallKeepsOwners(s.bufs, w, th, c, t);
    InstallKeepsPc(s.chunks, s.bufs, th, th', s.threads, t);
    PcsReplace(s.chunks, s.bufs, s.threads, t, th');
    InstallKeepsFree(s.free, w, th, t);
  }

  /** Every chunk but the one that leaves the slot still has its referrer. */
  ghost predicate InstallOwners(bufs: map<BufId, Buf>, th: Thread, w: Places)
  {
    && (forall b :: b in bufs ==> bufs[b].owner in w && (w[bufs[b].owner].InSlot? || w[bufs[b].owner].Loose?))
    && (forall o :: o in w && w[o].Loose? && Some(o) != th.slot ==> Owned(bufs, o))
  }

  lemma InstallKeepsFree(free: seq<ChunkId>, w: Places, th: Thread, t: Tid)
    requires FreeOk(free, w) && KeepsOk(th, t, w) && th.pc.Installing?
    ensures var w1 := w[th.pc.chunk := InSlot(t)];
            FreeOk(free, if th.slot.Some? then w1[th.slot.value := Loose] else w1)
  {
  }

  lemma InstallKeepsOwners(bufs: map<BufId, Buf>, w: Places, th: Thread, c: ChunkId, t: Tid)
    requires OwnersOk(bufs, w) && c in w && w[c] == InHand(t)
    ensures var w1 := w[c := InSlot(t)];
            && (th.slot.Some? ==> InstallOwners(bufs, th, w1[th.slot.value := Loose]))
            && (th.slot.None? ==> InstallOwners(bufs, th, w1) && OwnersOk(bufs, w1))
            && !Owned(bufs, c)
  {
  }

  lemma InstallKeepsPc(chunks: map<ChunkId, Chunk>, bufs: map<BufId, Buf>, th: Thread, th': Thread,
                       threads: seq<Thread>, t: Tid)
    requires PcsOk(chunks, bufs, threads) && t < |threads| && threads[t] == th && th.pc.Installing?
    requires !Owned(bufs, th.pc.chunk)
    requires th' == Thread(Resetting(th.pc.size, th.pc.id, th.pc.first), Some(th.pc.chunk), None)
    ensures PcOk(chunks, bufs, th')
  {
    assert PcOk(chunks, bufs, threads[t]);
  }

  ghost function PlacesAfterEnd(s: Pool, w: Places, t: Tid): Places
    requires Enabled(s, EndThread(t))
  {
    if s.threads[t].slot.None? then w else PlacesAfterRelease(s, w, t, s.threads[t].slot.value)
  }

  lemma EndStepKeepsInv(s: Pool, w: Places, t: Tid)
    requires Inv(s, w) && Enabled(s, EndThread(t))
    ensures Inv(EndStep(s, t), PlacesAfterEnd(s, w, t))
  {
    hide ChunksOk, FreeOk, ThreadsOk, OwnersOk, PcsOk, BufsOk, OpenOk, RefsOk;
    var th := s.threads[t];
    var s1 := s.(threads := s.threads[t := th.(slot := None)]);
    if th.slot.None? {
      assert s1.threads == s.threads;
    } else {
      var c := th.slot.value;
      assert c in w by { EndKeepsThreads(s, w, t); }
      EndKeepsThreads(s, w, t);
      ReleasedKeepsInv(s1, w[c := Loose], t, c);
      assert PlacesAfterRelease(s1, w[c := Loose], t, c) == PlacesAfterRelease(s, w, t, c);
    }
  }

  lemma EndKeepsThreads(s: Pool, w: Places, t: Tid)
    requires Inv(s, w) && Enabled(s, EndThread(t)) && s.threads[t].slot.Some?
    ensures var c := s.threads[t].slot.value;
            InvBut(s.(threads := s.threads[t := s.threads[t].(slot := None)]), w[c := Loose], c)
  {
    hide ChunksOk, FreeOk, ThreadsOk, OwnersOk, PcsOk, BufsOk, OpenOk, RefsOk;
    var th, c := s.threads[t], s.threads[t].slot.value;
    ThreadFacts(s, w, t);
    KeptFacts(s, w);
    Replace(s.chunks, s.bufs, s.threads, t, th.(slot := None), w, w[c := Loose]);
    PcsReplace(s.chunks, s.bufs, s.threads, t, th.(slot := None));
    EndKeepsOwners(s.bufs, s.free, w, c);
  }

  lemma EndKeepsOwners(bufs: map<BufId, Buf>, free: seq<ChunkId>, w: Places, c: ChunkId)
    requires OwnersOk(bufs, w) && FreeOk(free, w) && c in w && w[c].InSlot?
    ensures var w' := w[c := Loose];
            && FreeOk(free, w')
            && (forall b :: b in bufs ==>
                  bufs[b].owner in w' && (w'[bufs[b].owner].InSlot? || w'[bufs[b].owner].Loose?))
            && (forall o :: o in w' && w'[o].Loose? && o != c ==> Owned(bufs, o))
  {
  }

  ghost function PlacesAfterDrop(s: Pool, w: Places, t: Tid, ref: RefId): Places
    requires Enabled(s, Drop(t, ref))
  {
    var b := s.refs[ref];
    var c := s.bufs[b].owner;
    var s1 := s.(refs := s.refs - {ref}, bufs := s.bufs - {b});
    if HasToken(s1.refs, b) || c !in w || !w[c].Loose? then w else PlacesAfterRelease(s1, w, t, c)
  }

  lemma DropStepKeepsInv(s: Pool, w: Places, t: Tid, ref: RefId)
    requires Inv(s, w) && Enabled(s, Drop(t, ref))
    ensures Inv(DropStep(s, t, ref), PlacesAfterDrop(s, w, t, ref))
  {
    var b := s.refs[ref];
    var c := s.bufs[b].owner;
    var refs' := s.refs - {ref};
    if HasToken(refs', b) {
      forall o | o in s.bufs ensures HasToken(refs', o) {
        if o != b { OtherTokens(s.refs, ref, o); }
      }
    } else {
      var s1 := s.(refs := refs', bufs := s.bufs - {b});
      DropKeepsRest(s, w, t, ref);
      if w[c].InSlot? {
        assert KeptOk(s.threads, c, w[c]);
        assert Refers(s1.threads[w[c].t], c);
        assert Referenced(s1, c);
      } else {
        ReleasedKeepsInv(s1, w, t, c);
      }
    }
  }

  lemma OtherTokens(refs: map<RefId, BufId>, ref: RefId, o: BufId)
    requires ref in refs && HasToken(refs, o) && o != refs[ref]
    ensures HasToken(refs - {ref}, o)
  {
    var r :| r in refs && refs[r] == o;
    assert (refs - {ref})[r] == o;
  }

  lemma DropKeepsRefs(refs: map<RefId, BufId>, bufs: map<BufId, Buf>, ref: RefId)
    requires RefsOk(refs, bufs) && ref in refs && !HasToken(refs - {ref}, refs[ref])
    ensures RefsOk(refs - {ref}, bufs - {refs[ref]})
  {
    var b, refs', bufs' := refs[ref], refs - {ref}, bufs - {refs[ref]};
    forall o | o in bufs' ensures HasToken(refs', o) {
      OtherTokens(refs, ref, o);
    }
    forall r | r in refs' ensures refs'[r] in bufs' {
      assert refs'[r] == b ==> HasToken(refs', b);
    }
  }

  lemma DropKeepsOwners(bufs: map<BufId, Buf>, w: Places, b: BufId)
    requires OwnersOk(bufs, w) && b in bufs
    ensures var c := bufs[b].owner;
            var bufs' := bufs - {b};
            && c in w && (w[c].Loose? || w[c].InSlot?)
            && (forall o :: o in bufs' ==>
                  bufs'[o].owner in w && (w[bufs'[o].owner].InSlot? || w[bufs'[o].owner].Loose?))
            && (forall o :: o in w && w[o].Loose? && o != c ==> Owned(bufs', o))
            && (w[c].InSlot? ==> OwnersOk(bufs', w))
  {
    var bufs' := bufs - {b};
    forall o | o in w && w[o].Loose? && o != bufs[b].owner ensures Owned(bufs', o) {
      var x :| x in bufs && bufs[x].owner == o;
      assert bufs'[x].owner == o;
    }
  }

  lemma DropKeepsBufs(chunks: map<ChunkId, Chunk>, bufs: map<BufId, Buf>, b: BufId)
    requires BufsOk(chunks, bufs)
    ensures BufsOk(chunks, bufs - {b})
  {
    var bufs' := bufs - {b};
    forall o | o in bufs' ensures BufOk(chunks, bufs'[o]) {
      assert BufOk(chunks, bufs[o]);
    }
  }

  lemma DropKeepsPcs(chunks: map<ChunkId, Chunk>, bufs: map<BufId, Buf>, threads: seq<Thread>, b: BufId)
    requires PcsOk(chunks, bufs, threads) && b in bufs && bufs[b].write != 0
    ensures PcsOk(chunks, bufs - {b}, threads)
  {
    forall t | 0 <= t < |threads| ensures PcOk(chunks, bufs - {b}, threads[t]) {
      assert PcOk(chunks, bufs, threads[t]);
    }
  }

  lemma DropKeepsOpen(chunks: map<ChunkId, Chunk>, bufs: map<BufId, Buf>, threads: seq<Thread>, w: Places, b: BufId)
    requires OpenOk(chunks, bufs, threads, w)
    ensures OpenOk(chunks, bufs - {b}, threads, w)
  {
  }

  /** Removing a closed buffer disturbs nothing but, possibly, the last reference to its chunk. */
  lemma DropKeepsRest(s: Pool, w: Places, t: Tid, ref: RefId)
    requires Inv(s, w) && Enabled(s, Drop(t, ref)) && !HasToken(s.refs - {ref}, s.refs[ref])
    ensures var b := s.refs[ref];
            var c := s.bufs[b].owner;
            var s1 := s.(refs := s.refs - {ref}, bufs := s.bufs - {b});
            && c in w && (w[c].Loose? || w[c].InSlot?)
            && (w[c].Loose? ==> InvBut(s1, w, c)) && (w[c].InSlot? ==> Inv(s1, w))
  {
    hide ChunksOk, FreeOk, ThreadsOk, OwnersOk, PcsOk, BufsOk, OpenOk, RefsOk;
    var b := s.refs[ref];
    var c := s.bufs[b].owner;
    DropKeepsRefs(s.refs, s.bufs, ref);
    DropKeepsOwners(s.bufs, w, b);
    DropKeepsBufs(s.chunks, s.bufs, b);
    DropKeepsPcs(s.chunks, s.bufs, s.threads, b);
    DropKeepsOpen(s.chunks, s.bufs, s.threads, w, b);
  }

  // ----- every run -----

  ghost function PlacesAfter(s: Pool, w: Places, a: Action): Places
    requires Enabled(s, a)
  {
    match a
    case Pop(t, newChunk) => PlacesAfterPop(s, w, t, newChunk)
    case Install(t) => PlacesAfterInstall(s, w, t)
    case PushBack(t) => w[s.threads[t].ret.value := Pooled(|s.free|)]
    case Drop(t, ref) => PlacesAfterDrop(s, w, t, ref)
    case EndThread(t) => PlacesAfterEnd(s, w, t)
    case _ => w
  }

  lemma NextKeepsInv(s: Pool, w: Places, a: Action)
    requires Inv(s, w) && Enabled(s, a)
    ensures Inv(Next(s, a), PlacesAfter(s, w, a))
  {
    hide Inv;
    match a
    case Begin(t, dataSize, id) => BeginStepKeepsInv(s, w, t, dataSize, id);
    case Pop(t, newChunk) => PopStepKeepsInv(s, w, t, newChunk);
    case Install(t) => InstallStepKeepsInv(s, w, t);
    case PushBack(t) => PushBackStepKeepsInv(s, w, t);
    case ResetSlot(t) => ResetStepKeepsInv(s, w, t);
    case Check(t) => CheckStepKeepsInv(s, w, t);
    case OpenSlot(t, buf, ref) => OpenStepKeepsInv(s, w, t, buf, ref);
    case WriteHeader(t) => HeaderStepKeepsInv(s, w, t);
    case CloseBuf(t) => CloseStepKeepsInv(s, w, t);
    case WritePayload(buf, at, data) => PayloadStepKeepsInv(s, w, buf, at, data);
    case Share(ref, copy) => ShareStepKeepsInv(s, w, ref, copy);
    case Drop(t, ref) => DropStepKeepsInv(s, w, t, ref);
    case EndThread(t) => EndStepKeepsInv(s, w, t);
  }

  lemma StartHasInv(n: nat)
    ensures Inv(Start(n), map[])
  {
  }

  ghost predicate Reachable(n: nat, s: Pool)
  {
    exists run :: CanRun(Start(n), run) && After(Start(n), run) == s
  }

  lemma {:induction false} RunKeepsInv(s: Pool, w: Places, run: seq<Action>) returns (w': Places)
    requires Inv(s, w) && CanRun(s, run)
    ensures Inv(After(s, run), w')
    decreases |run|
  {
    hide Inv;
    if run == [] {
      w' := w;
    } else {
      NextKeepsInv(s, w, run[0]);
      w' := RunKeepsInv(Next(s, run[0]), PlacesAfter(s, w, run[0]), run[1..]);
    }
  }

  lemma ReachableHasInv(n: nat, s: Pool) returns (w: Places)
    requires Reachable(n, s)
    ensures Inv(s, w)
  {
    StartHasInv(n);
    var run :| CanRun(Start(n), run) && After(Start(n), run) == s;
    w := RunKeepsInv(Start(n), map[], run);
  }

  // ----- the promises -----

  /** However the threads interleave, live buffers lie inside their chunks, never overlap, and once closed carry
      a header with their size. */
  lemma LiveBuffersNeverOverlap(n: nat, s: Pool, a: BufId, b: BufId)
    requires Reachable(n, s) && a in s.bufs && b in s.bufs
    ensures s.bufs[a].owner in s.chunks && s.bufs[a].off + s.bufs[a].alloc <= CHUNK_SIZE
    ensures a != b ==> Disjoint(s.bufs[a], s.bufs[b])
    ensures s.bufs[a].write != 0 ==> s.bufs[a].write == s.bufs[a].alloc && HeaderOk(s.chunks, s.bufs[a])
  {
    var w := ReachableHasInv(n, s);
    assert BufOk(s.chunks, s.bufs[a]);
  }

  /** No assertion of the allocator fires, no null buffer is returned, and no chunk is filled past its size. */
  lemma AllocatorNeverCrashes(n: nat, s: Pool, t: Tid)
    requires Reachable(n, s) && t < |s.threads|
    ensures !s.threads[t].pc.Crashed?
    ensures forall c :: c in s.chunks ==> s.chunks[c].used <= CHUNK_SIZE
  {
    var w := ReachableHasInv(n, s);
    assert PcOk(s.chunks, s.bufs, s.threads[t]);
  }

  /** p is where chunk c is. */
  ghost predicate IsAt(s: Pool, c: ChunkId, p: Place)
  {
    match p
    case Pooled(i) => i < |s.free| && s.free[i] == c
    case Loose => Owned(s.bufs, c) && (forall t :: 0 <= t < |s.threads| ==> s.threads[t].slot != Some(c))
    case _ => KeptOk(s.threads, c, p)
  }

  /** Chunk conservation: every chunk ever created is in exactly one place, and only a slot or live buffers themselves
      may go together with live buffers. */
  lemma EveryChunkHasOnePlace(n: nat, s: Pool, c: ChunkId)
    requires Reachable(n, s) && c in s.chunks
    ensures exists p :: IsAt(s, c, p) && (forall q :: IsAt(s, c, q) ==> q == p)
                        && (Owned(s.bufs, c) ==> p.InSlot? || p.Loose?)
  {
    var w := ReachableHasInv(n, s);
    var p := w[c];
    assert IsAt(s, c, p) by {
      assert KeptOk(s.threads, c, w[c]);
      if p.Loose? {
        NobodyRefers(s.threads, w, c);
        assert forall t :: 0 <= t < |s.threads| ==> !Refers(s.threads[t], c);
      }
    }
    forall q | IsAt(s, c, q) ensures q == p {
      OnePlace(s, w, c, q);
    }
  }

  lemma OnePlace(s: Pool, w: Places, c: ChunkId, q: Place)
    requires Inv(s, w) && c in w && IsAt(s, c, q)
    ensures q == w[c]
  {
    assert KeptOk(s.threads, c, w[c]);
    match q
    case Pooled(i) =>
    case Loose =>
      var b :| b in s.bufs && s.bufs[b].owner == c;
    case InSlot(t) => assert KeepsOk(s.threads[t], t, w);
    case InHand(t) => assert KeepsOk(s.threads[t], t, w);
    case InDeleter(t) => assert KeepsOk(s.threads[t], t, w);
  }

  /** Reset rewinds only chunks that no live buffer points into. */
  lemma ResetOnlyUnusedChunks(n: nat, s: Pool, t: Tid)
    requires Reachable(n, s) && Enabled(s, ResetSlot(t))
    ensures forall b :: b in s.bufs ==> s.bufs[b].owner != s.threads[t].slot.value
  {
    var w := ReachableHasInv(n, s);
    assert PcOk(s.chunks, s.bufs, s.threads[t]);
  }

  /** buf is still what and where it was, with the same bytes. */
  ghost predicate SameContent(chunks: map<ChunkId, Chunk>, after: map<ChunkId, Chunk>, buf: Buf)
  {
    InChunk(chunks, buf) && InChunk(after, buf) && Content(after, buf) == Content(chunks, buf)
  }

  /** a writes bytes of buffer b. */
  predicate Touches(s: Pool, a: Action, b: BufId)
  {
    match a
    case WritePayload(buf, _, _) => buf == b
    case WriteHeader(t) => t < |s.threads| && s.threads[t].pc.Heading? && s.threads[t].pc.buf == b
    case _ => false
  }

  /** One step leaves the place and the bytes of every buffer, open or closed, that it neither frees nor writes to. */
  lemma StepKeepsBytes(s: Pool, w: Places, a: Action, b: BufId)
    requires Inv(s, w) && Enabled(s, a) && b in s.bufs && b in Next(s, a).bufs && !Touches(s, a, b)
    ensures Next(s, a).bufs[b].(write := 0) == s.bufs[b].(write := 0)
    ensures SameContent(s.chunks, Next(s, a).chunks, s.bufs[b])
  {
    hide Inv, SameContent;
    BufFacts(s, w, b);
    match a
    case ResetSlot(t) => ResetKeepsContent(s, w, t, b);
    case WriteHeader(t) => HeaderKeepsContent(s, w, t, b);
    case CloseBuf(t) => CloseKeepsContent(s, w, t, b);
    case OpenSlot(t, o, ref) => OpenKeepsContent(s, w, t, o, ref, b);
    case WritePayload(o, at, data) => PayloadKeepsContent(s, w, o, at, data, b);
    case _ => QuietStep(s, a, b);
  }

  /** One step leaves the place and the bytes of a closed buffer that it neither frees nor writes to. */
  lemma StepKeepsContent(s: Pool, w: Places, a: Action, b: BufId)
    requires Inv(s, w) && Enabled(s, a) && IsClosed(s, b) && b in Next(s, a).bufs
    requires a.WritePayload? ==> a.buf != b
    ensures Next(s, a).bufs[b] == s.bufs[b] && SameContent(s.chunks, Next(s, a).chunks, s.bufs[b])
  {
    hide Inv, SameContent, Next, Enabled;
    ClosedIsNotTouched(s, w, a, b);
    StepKeepsBytes(s, w, a, b);
    ClosedStaysClosed(s, w, a, b);
  }

  lemma ClosedIsNotTouched(s: Pool, w: Places, a: Action, b: BufId)
    requires Inv(s, w) && IsClosed(s, b) && (a.WritePayload? ==> a.buf != b)
    ensures !Touches(s, a, b)
  {
    hide Inv;
    if a.WriteHeader? && a.t < |s.threads| { ThreadFacts(s, w, a.t); }
  }

  lemma ClosedStaysClosed(s: Pool, w: Places, a: Action, b: BufId)
    requires Inv(s, w) && Enabled(s, a) && IsClosed(s, b) && b in Next(s, a).bufs
    ensures Next(s, a).bufs[b].write == s.bufs[b].write
  {
    hide Inv;
    if a.CloseBuf? { CloseSucceeds(s, w, a.t); }
  }

  lemma ClosedIsInChunk(s: Pool, w: Places, b: BufId)
    requires Inv(s, w) && IsClosed(s, b)
    ensures InChunk(s.chunks, s.bufs[b]) && HeaderOk(s.chunks, s.bufs[b])
  {
    BufFacts(s, w, b);
  }

  /** The other steps write no byte. */
  lemma QuietStep(s: Pool, a: Action, b: BufId)
    requires Enabled(s, a) && b in s.bufs && b in Next(s, a).bufs && InChunk(s.chunks, s.bufs[b])
    requires !a.ResetSlot? && !a.WriteHeader? && !a.CloseBuf? && !a.OpenSlot? && !a.WritePayload?
    ensures Next(s, a).bufs[b] == s.bufs[b] && SameContent(s.chunks, Next(s, a).chunks, s.bufs[b])
  {
  }

  lemma CloseKeepsContent(s: Pool, w: Places, t: Tid, b: BufId)
    requires Inv(s, w) && Enabled(s, CloseBuf(t)) && b in s.bufs
    ensures b in CloseStep(s, t).bufs && CloseStep(s, t).bufs[b].(write := 0) == s.bufs[b].(write := 0)
    ensures SameContent(s.chunks, CloseStep(s, t).chunks, s.bufs[b])
  {
    hide Inv;
    BufFacts(s, w, b);
    CloseSucceeds(s, w, t);
  }

  lemma OpenKeepsContent(s: Pool, w: Places, t: Tid, o: BufId, ref: RefId, b: BufId)
    requires Inv(s, w) && Enabled(s, OpenSlot(t, o, ref)) && b in s.bufs
    ensures var s' := OpenStep(s, t, o, ref);
            b in s'.bufs && s'.bufs[b] == s.bufs[b] && SameContent(s.chunks, s'.chunks, s.bufs[b])
  {
    hide Inv;
    BufFacts(s, w, b);
    OpenSucceeds(s, w, t);
    var c := s.threads[t].slot.value;
    assert OpenStep(s, t, o, ref).chunks == s.chunks[c := s.chunks[c].(open := true)];
  }

  lemma PayloadKeepsContent(s: Pool, w: Places, o: BufId, at: nat, data: seq<byte>, b: BufId)
    requires Inv(s, w) && Enabled(s, WritePayload(o, at, data)) && b in s.bufs && o != b
    ensures SameContent(s.chunks, PayloadStep(s, o, at, data).chunks, s.bufs[b])
  {
    hide FreeOk, ThreadsOk, OwnersOk, PcsOk, OpenOk, RefsOk, BufsOk, ChunksOk;
    BufFacts(s, w, b);
    WriteKeepsOthers(s.chunks, s.bufs, o, at, data);
  }

  lemma ResetKeepsContent(s: Pool, w: Places, t: Tid, b: BufId)
    requires Inv(s, w) && Enabled(s, ResetSlot(t)) && b in s.bufs
    ensures SameContent(s.chunks, ResetStep(s, t).chunks, s.bufs[b])
  {
    hide Inv;
    BufFacts(s, w, b);
    ThreadFacts(s, w, t);
    assert s.bufs[b].owner != s.threads[t].slot.value;
  }

  lemma HeaderKeepsContent(s: Pool, w: Places, t: Tid, b: BufId)
    requires Enabled(s, WriteHeader(t)) && b in s.bufs && s.threads[t].pc.buf != b
    requires Inv(s, w)
    ensures SameContent(s.chunks, HeaderStep(s, t).chunks, s.bufs[b])
  {
    hide FreeOk, ThreadsOk, OwnersOk, PcsOk, OpenOk, RefsOk, BufsOk, ChunksOk, Content, U16;
    var pc := s.threads[t].pc;
    BufFacts(s, w, b);
    ThreadFacts(s, w, t);
    if s.bufs[pc.buf].alloc < Framing.HEADER_SIZE { return; }
    WriteKeepsOthers(s.chunks, s.bufs, pc.buf, 0, U16(pc.id) + U16(s.bufs[pc.buf].alloc));
  }

  // ----- what a buffer holds -----

  /** The bytes of c with data written over them at offset at. */
  function Overwritten(c: seq<byte>, at: nat, data: seq<byte>): (r: seq<byte>)
    requires at + |data| <= |c|
    ensures |r| == |c|
  {
    c[..at] + data + c[at + |data|..]
  }

  /** A payload write puts its bytes where it says and changes nothing else of its buffer, nor of any other. */
  lemma PayloadIsWritten(n: nat, s: Pool, buf: BufId, at: nat, data: seq<byte>)
    requires Reachable(n, s) && Enabled(s, WritePayload(buf, at, data))
    ensures var s' := Next(s, WritePayload(buf, at, data));
            && s'.bufs == s.bufs && InChunk(s.chunks, s.bufs[buf]) && InChunk(s'.chunks, s.bufs[buf])
            && at + |data| <= s.bufs[buf].alloc
            && Content(s'.chunks, s.bufs[buf]) == Overwritten(Content(s.chunks, s.bufs[buf]), at, data)
            && (forall b :: b in s.bufs && b != buf ==> SameContent(s.chunks, s'.chunks, s.bufs[b]))
  {
    var w := ReachableHasInv(n, s);
    hide Inv, SameContent;
    PayloadOverwrites(s, w, buf, at, data);
    var s' := Next(s, WritePayload(buf, at, data));
    forall b | b in s.bufs && b != buf ensures SameContent(s.chunks, s'.chunks, s.bufs[b]) {
      PayloadKeepsContent(s, w, buf, at, data, b);
    }
  }

  lemma PayloadOverwrites(s: Pool, w: Places, buf: BufId, at: nat, data: seq<byte>)
    requires Inv(s, w) && Enabled(s, WritePayload(buf, at, data))
    ensures var s' := PayloadStep(s, buf, at, data);
            && s'.bufs == s.bufs && InChunk(s.chunks, s.bufs[buf]) && InChunk(s'.chunks, s.bufs[buf])
            && at + |data| <= s.bufs[buf].alloc
            && Content(s'.chunks, s.bufs[buf]) == Overwritten(Content(s.chunks, s.bufs[buf]), at, data)
  {
    hide FreeOk, ThreadsOk, OwnersOk, PcsOk, OpenOk, RefsOk, BufsOk, ChunksOk;
    BufFacts(s, w, buf);
    WriteKeepsOthers(s.chunks, s.bufs, buf, at, data);
    var x, y := Content(s.chunks, s.bufs[buf]), Content(PayloadStep(s, buf, at, data).chunks, s.bufs[buf]);
    assert y == y[..at] + y[at..at + |data|] + y[at + |data|..];
  }

  /** The bytes of buffer b after the writes of run through it, when it held c before. The run alone says it. */
  function Written(c: seq<byte>, run: seq<Action>, b: BufId): (r: seq<byte>)
    ensures |r| == |c|
    decreases |run|
  {
    if run == [] then c
    else
      var a := run[0];
      Written(if a.WritePayload? && a.buf == b && a.at + |a.data| <= |c| then Overwritten(c, a.at, a.data) else c,
              run[1..], b)
  }

  ghost predicate LiveThroughout(s: Pool, run: seq<Action>, b: BufId)
    requires CanRun(s, run)
    decreases |run|
  {
    b in s.bufs && (run == [] || LiveThroughout(Next(s, run[0]), run[1..], b))
  }

  lemma {:induction false} HoldsFrom(s: Pool, w: Places, run: seq<Action>, b: BufId)
    requires Inv(s, w) && CanRun(s, run) && IsClosed(s, b) && LiveThroughout(s, run, b)
    ensures b in After(s, run).bufs && After(s, run).bufs[b] == s.bufs[b]
    ensures InChunk(s.chunks, s.bufs[b]) && InChunk(After(s, run).chunks, s.bufs[b])
    ensures Content(After(s, run).chunks, s.bufs[b]) == Written(Content(s.chunks, s.bufs[b]), run, b)
    decreases |run|
  {
    hide Inv, Next, Enabled, PlacesAfter, Content;
    ClosedIsInChunk(s, w, b);
    if run != [] {
      var a := run[0];
      if a.WritePayload? && a.buf == b {
        PayloadOverwritesNext(s, w, a);
      } else {
        StepKeepsContent(s, w, a, b);
      }
      NextKeepsInv(s, w, a);
      HoldsFrom(Next(s, a), PlacesAfter(s, w, a), run[1..], b);
    }
  }

  lemma PayloadOverwritesNext(s: Pool, w: Places, a: Action)
    requires Inv(s, w) && Enabled(s, a) && a.WritePayload?
    ensures a.buf in s.bufs && Next(s, a).bufs == s.bufs
    ensures InChunk(s.chunks, s.bufs[a.buf]) && InChunk(Next(s, a).chunks, s.bufs[a.buf])
    ensures a.at + |a.data| <= s.bufs[a.buf].alloc
    ensures Content(Next(s, a).chunks, s.bufs[a.buf]) == Overwritten(Content(s.chunks, s.bufs[a.buf]), a.at, a.data)
  {
    hide Inv, Content, Overwritten;
    PayloadOverwrites(s, w, a.buf, a.at, a.data);
  }

  /** What a buffer holds over runs: from Close until the last reference is dropped, exactly the bytes it had at Close
      with the writes through it applied in order, whatever every thread does in between. */
  lemma BufferHoldsItsWrites(n: nat, s: Pool, run: seq<Action>, b: BufId)
    requires Reachable(n, s) && CanRun(s, run) && IsClosed(s, b) && LiveThroughout(s, run, b)
    ensures b in After(s, run).bufs && After(s, run).bufs[b] == s.bufs[b]
    ensures InChunk(s.chunks, s.bufs[b]) && InChunk(After(s, run).chunks, s.bufs[b])
    ensures Content(After(s, run).chunks, s.bufs[b]) == Written(Content(s.chunks, s.bufs[b]), run, b)
  {
    hide Inv, Reachable, CanRun, After, LiveThroughout, Content;
    var w := ReachableHasInv(n, s);
    HoldsFrom(s, w, run, b);
  }

  lemma {:induction false} NothingWritten(c: seq<byte>, run: seq<Action>, b: BufId)
    requires forall a :: a in run && a.WritePayload? ==> a.buf != b
    ensures Written(c, run, b) == c
    decreases |run|
  {
    if run != [] {
      assert run[0] in run && (forall a :: a in run[1..] ==> a in run);
      NothingWritten(c, run[1..], b);
    }
  }

  /** In particular nothing else changes its bytes. */
  lemma ContentIsStable(n: nat, s: Pool, run: seq<Action>, b: BufId)
    requires Reachable(n, s) && CanRun(s, run) && IsClosed(s, b) && LiveThroughout(s, run, b)
    requires forall a :: a in run && a.WritePayload? ==> a.buf != b
    ensures b in After(s, run).bufs && After(s, run).bufs[b] == s.bufs[b]
    ensures SameContent(s.chunks, After(s, run).chunks, s.bufs[b])
  {
    hide Reachable, CanRun, After, LiveThroughout, Content, Written;
    BufferHoldsItsWrites(n, s, run, b);
    NothingWritten(Content(s.chunks, s.bufs[b]), run, b);
  }

  // ----- progress -----

  /** The step thread t takes next, given unused identifiers. */
  ghost function OwnStep(s: Pool, t: Tid, newChunk: ChunkId, buf: BufId, ref: RefId): Action
    requires t < |s.threads|
  {
    if s.threads[t].ret.Some? then PushBack(t)
    else match s.threads[t].pc
         case Popping(_, _, _) => Pop(t, newChunk)
         case Installing(_, _, _, _) => Install(t)
         case Resetting(_, _, _) => ResetSlot(t)
         case Checking(_, _) => Check(t)
         case Opening(_, _) => OpenSlot(t, buf, ref)
         case Heading(_, _) => WriteHeader(t)
         case _ => CloseBuf(t)
  }

  /** A bound on the steps of its own that thread th still needs to finish MakeSendBuffer and the deleter. */
  function StepsLeft(th: Thread): nat
  {
    (if th.ret.Some? then 1 else 0) + 2 *
    match th.pc
    case Idle => 0
    case Popping(_, _, first) => if first then 10 else 6
    case Installing(_, _, first, _) => if first then 9 else 5
    case Resetting(_, _, first) => if first then 8 else 4
    case Checking(_, _) => 7
    case Opening(_, _) => 3
    case Heading(_, _) => 2
    case Closing(_, _) => 1
    case Crashed => 0
  }

  /** A thread inside the allocator can always go on, and each of its steps brings it closer to returning a buffer,
      unless it is the write that does not fit. */
  lemma AllocatorAlwaysProgresses(n: nat, s: Pool, t: Tid, newChunk: ChunkId, buf: BufId, ref: RefId)
    requires Reachable(n, s) && !s.overrun && t < |s.threads| && !Free(s, t)
    requires newChunk !in s.chunks && buf !in s.bufs && ref !in s.refs
    ensures var a := OwnStep(s, t, newChunk, buf, ref);
            && Enabled(s, a) && t < |Next(s, a).threads|
            && (Next(s, a).overrun || StepsLeft(Next(s, a).threads[t]) < StepsLeft(s.threads[t]) <= 21)
  {
    var w := ReachableHasInv(n, s);
    OwnStepEnabled(s, w, t, newChunk, buf, ref);
    OwnStepLowers(s, OwnStep(s, t, newChunk, buf, ref), t);
  }

  lemma OwnStepEnabled(s: Pool, w: Places, t: Tid, newChunk: ChunkId, buf: BufId, ref: RefId)
    requires Inv(s, w) && !s.overrun && t < |s.threads| && !Free(s, t)
    requires newChunk !in s.chunks && buf !in s.bufs && ref !in s.refs
    ensures Enabled(s, OwnStep(s, t, newChunk, buf, ref)) && !s.threads[t].pc.Crashed?
  {
    hide FreeOk, OpenOk, RefsOk, OwnersOk;
    assert PcOk(s.chunks, s.bufs, s.threads[t]) && KeepsOk(s.threads[t], t, w);
    if s.threads[t].pc.Heading? || s.threads[t].pc.Closing? {
      assert BufOk(s.chunks, s.bufs[s.threads[t].pc.buf]);
    }
  }

  lemma OwnStepLowers(s: Pool, a: Action, t: Tid)
    requires t < |s.threads| && Enabled(s, a) && !Free(s, t) && !s.threads[t].pc.Crashed?
    requires a == OwnStep(s, t, if a.Pop? then a.newChunk else 0, if a.OpenSlot? then a.buf else 0,
                          if a.OpenSlot? then a.ref else 0)
    ensures t < |Next(s, a).threads|
    ensures Next(s, a).overrun || StepsLeft(Next(s, a).threads[t]) < StepsLeft(s.threads[t]) <= 21
  {
  }

  // ----- which requests overrun -----

  /** Header and payload stay inside the bytes asked for exactly up to 65531 bytes of payload; more than that ends
      outside the chunk, wherever it starts. */
  lemma WritesStayInsideExactly(off: nat, dataSize: nat)
    requires dataSize < U16_LIMIT
    ensures Framing.HEADER_SIZE + dataSize <= Framing.PacketSize(dataSize) <==> dataSize <= 65531
    ensures Framing.PacketSize(dataSize) < Framing.HEADER_SIZE <==> dataSize > 65531
    ensures off + Framing.HEADER_SIZE + dataSize > CHUNK_SIZE <== dataSize > 65531
  {
  }

  predicate InRequest(s: Pool, t: Tid) { t < |s.threads| && !s.threads[t].pc.Idle? && !s.threads[t].pc.Crashed? }

  /** The packet size thread t is being served. */
  ghost function Carried(s: Pool, t: Tid): nat
    requires t < |s.threads|
  {
    match s.threads[t].pc
    case Popping(size, _, _) => size
    case Installing(size, _, _, _) => size
    case Resetting(size, _, _) => size
    case Checking(size, _) => size
    case Opening(size, _) => size
    case Heading(buf, _) => if buf in s.bufs then s.bufs[buf].alloc else 0
    case Closing(buf, _) => if buf in s.bufs then s.bufs[buf].alloc else 0
    case _ => 0
  }

  /** The packet id thread t is to write. */
  function CarriedId(s: Pool, t: Tid): nat
    requires t < |s.threads|
  {
    match s.threads[t].pc
    case Popping(_, id, _) => id
    case Installing(_, id, _, _) => id
    case Resetting(_, id, _) => id
    case Checking(_, id) => id
    case Opening(_, id) => id
    case Heading(_, id) => id
    case Closing(_, id) => id
    case _ => 0
  }

  /** The first four bytes of buf are a header for packet id of the size of buf. */
  ghost predicate Headed(chunks: map<ChunkId, Chunk>, buf: Buf, id: nat)
  {
    && InChunk(chunks, buf) && Framing.HEADER_SIZE <= buf.alloc < U16_LIMIT && id < U16_LIMIT
    && Content(chunks, buf)[..Framing.HEADER_SIZE] == U16(id) + U16(buf.alloc)
  }

  /** A thread past the header has written it for the packet it was asked for. */
  ghost predicate HeaderDone(s: Pool, t: Tid)
    requires t < |s.threads|
  {
    var pc := s.threads[t].pc;
    pc.Closing? ==> pc.buf in s.bufs && Headed(s.chunks, s.bufs[pc.buf], pc.id)
  }

  lemma HeaderIsWritten(s: Pool, w: Places, t: Tid)
    requires Enabled(s, WriteHeader(t)) && Framing.HEADER_SIZE <= s.bufs[s.threads[t].pc.buf].alloc
    requires Inv(s, w)
    ensures t < |HeaderStep(s, t).threads| && HeaderDone(HeaderStep(s, t), t)
  {
    hide FreeOk, ThreadsOk, OwnersOk, PcsOk, OpenOk, RefsOk, BufsOk, ChunksOk, U16;
    var pc := s.threads[t].pc;
    WriteKeepsOthers(s.chunks, s.bufs, pc.buf, 0, U16(pc.id) + U16(s.bufs[pc.buf].alloc));
  }

  /** Nobody else writes into a buffer between its header and its Close. */
  lemma ClosingIsNotTouched(s: Pool, w: Places, a: Action, t: Tid)
    requires Enabled(s, a) && t < |s.threads| && s.threads[t].pc.Closing?
    requires Inv(s, w)
    ensures !Touches(s, a, s.threads[t].pc.buf)
  {
    hide Inv;
    ThreadFacts(s, w, t);
    if a.WriteHeader? { ThreadFacts(s, w, a.t); }
  }

  lemma HeaderStays(s: Pool, w: Places, a: Action, t: Tid)
    requires Enabled(s, a) && t < |s.threads| && s.threads[t].pc.Closing? && HeaderDone(s, t)
    requires Inv(s, w)
    ensures var b := s.threads[t].pc.buf;
            && b in Next(s, a).bufs && Next(s, a).bufs[b].(write := 0) == s.bufs[b].(write := 0)
            && Headed(Next(s, a).chunks, s.bufs[b], s.threads[t].pc.id)
  {
    hide Inv, Next, Enabled, Content;
    var b := s.threads[t].pc.buf;
    ThreadFacts(s, w, t);
    ClosingIsNotTouched(s, w, a, t);
    OpenBufferStays(s, a, b);
    StepKeepsBytes(s, w, a, b);
  }

  /** A header does not fit exactly when the packet size carried to it is below the header's own. */
  lemma OverrunStep(s: Pool, a: Action)
    requires Enabled(s, a)
    ensures Next(s, a).overrun <==> a.WriteHeader? && Carried(s, a.t) < Framing.HEADER_SIZE
  {
  }

  /** A thread's place in a request is its own business. */
  lemma PcIsOwn(s: Pool, a: Action, t: Tid)
    requires Enabled(s, a) && t < |s.threads|
    requires a.WritePayload? || a.Share? || a.t != t || a.PushBack? || a.Drop? || a.EndThread?
    ensures t < |Next(s, a).threads| && Next(s, a).threads[t].pc == s.threads[t].pc
  {
  }

  /** A buffer that is still open is neither freed nor resized. */
  lemma OpenBufferStays(s: Pool, a: Action, b: BufId)
    requires Enabled(s, a) && b in s.bufs && s.bufs[b].write == 0
    ensures b in Next(s, a).bufs && Next(s, a).bufs[b].alloc == s.bufs[b].alloc
  {
  }

  lemma OwnStepCarries(s: Pool, w: Places, a: Action, t: Tid)
    requires Inv(s, w) && Enabled(s, a) && InRequest(s, t)
    requires !a.WritePayload? && !a.Share? && !a.PushBack? && !a.Drop? && !a.EndThread? && !a.CloseBuf? && a.t == t
    ensures InRequest(Next(s, a), t) && Carried(Next(s, a), t) == Carried(s, t)
    ensures CarriedId(Next(s, a), t) == CarriedId(s, t)
  {
    hide Inv;
    ThreadFacts(s, w, t);
    if a.OpenSlot? {
      OpenSucceeds(s, w, t);
    } else if a.Check? {
      SlotIsClosed(s, w, t);
    }
  }

  /** A request keeps its size until it is finished, whatever the other threads do. */
  lemma CarriedStays(s: Pool, w: Places, a: Action, t: Tid)
    requires Inv(s, w) && Enabled(s, a) && InRequest(s, t)
    ensures var s' := Next(s, a);
            && t < |s'.threads| && (s'.threads[t].pc.Idle? <==> a == CloseBuf(t))
            && (a != CloseBuf(t) ==>
                  InRequest(s', t) && Carried(s', t) == Carried(s, t) && CarriedId(s', t) == CarriedId(s, t))
  {
    if a == CloseBuf(t) {
      CloseSucceeds(s, w, t);
    } else if a.WritePayload? || a.Share? || a.t != t || a.PushBack? || a.Drop? || a.EndThread? {
      hide Inv, Next, Enabled;
      PcIsOwn(s, a, t);
      ThreadFacts(s, w, t);
      var pc := s.threads[t].pc;
      if pc.Heading? || pc.Closing? { OpenBufferStays(s, a, pc.buf); }
    } else {
      OwnStepCarries(s, w, a, t);
    }
  }

  /** The payload size thread t asked for last. */
  function Requested(run: seq<Action>, t: Tid): Option<nat>
  {
    if run == [] then None
    else
      var last := run[|run| - 1];
      if last.Begin? && last.t == t then Some(last.dataSize) else Requested(run[..|run| - 1], t)
  }

  /** The packet id thread t asked for last. */
  function RequestedId(run: seq<Action>, t: Tid): Option<nat>
  {
    if run == [] then None
    else
      var last := run[|run| - 1];
      if last.Begin? && last.t == t then Some(last.id) else RequestedId(run[..|run| - 1], t)
  }

  lemma {:induction false} RunSnoc(s: Pool, run: seq<Action>, a: Action)
    ensures CanRun(s, run + [a]) <==> CanRun(s, run) && Enabled(After(s, run), a)
    ensures CanRun(s, run + [a]) ==> After(s, run + [a]) == Next(After(s, run), a)
    decreases |run|
  {
    hide Enabled, Next;
    if run == [] {
      assert run + [a] == [a];
      assert CanRun(s, [a]) <==> Enabled(s, a);
    } else if Enabled(s, run[0]) {
      assert (run + [a])[1..] == run[1..] + [a];
      RunSnoc(Next(s, run[0]), run[1..], a);
    }
  }

  /** Thread t carries the size and the id it asked for, and has written them if it is past the header. */
  ghost predicate TracksThread(s: Pool, run: seq<Action>, t: Tid)
    requires t < |s.threads|
  {
    var asked := Requested(run, t);
    && asked.Some? && asked.value < U16_LIMIT && Carried(s, t) == Framing.PacketSize(asked.value)
    && RequestedId(run, t) == Some(CarriedId(s, t)) && HeaderDone(s, t)
  }

  ghost predicate Tracks(s: Pool, run: seq<Action>)
  {
    forall t :: InRequest(s, t) ==> TracksThread(s, run, t)
  }

  lemma StepTracks(s: Pool, w: Places, run: seq<Action>, a: Action)
    requires Inv(s, w) && Tracks(s, run) && Enabled(s, a)
    ensures Tracks(Next(s, a), run + [a])
  {
    hide Inv, Next, Enabled, TracksThread;
    forall t | InRequest(Next(s, a), t) ensures TracksThread(Next(s, a), run + [a], t) {
      if InRequest(s, t) {
        StaysTracked(s, w, run, a, t);
      } else {
        EntersByBegin(s, w, a, t);
        BeginTracks(Next(s, a), run, a, t);
      }
    }
  }

  lemma EntersClosing(s: Pool, a: Action, t: Tid)
    requires Enabled(s, a) && InRequest(s, t) && t < |Next(s, a).threads| && Next(s, a).threads[t].pc.Closing?
    ensures s.threads[t].pc.Closing? || a == WriteHeader(t)
  {
  }

  lemma ClosingKeepsBuf(s: Pool, a: Action, t: Tid)
    requires Enabled(s, a) && t < |s.threads| && s.threads[t].pc.Closing?
    requires t < |Next(s, a).threads| && Next(s, a).threads[t].pc.Closing?
    ensures Next(s, a).threads[t].pc == s.threads[t].pc
    ensures s.threads[t].pc.buf in s.bufs && s.threads[t].pc.buf in Next(s, a).bufs ==>
              Next(s, a).bufs[s.threads[t].pc.buf].alloc == s.bufs[s.threads[t].pc.buf].alloc
  {
  }

  lemma WritesOwnHeader(s: Pool, w: Places, t: Tid)
    requires Enabled(s, WriteHeader(t)) && t < |Next(s, WriteHeader(t)).threads|
    requires Next(s, WriteHeader(t)).threads[t].pc.Closing?
    requires Inv(s, w)
    ensures HeaderDone(Next(s, WriteHeader(t)), t)
  {
    hide Inv, HeaderDone;
    HeaderIsWritten(s, w, t);
  }

  lemma HeaderKept(s: Pool, w: Places, a: Action, t: Tid)
    requires Inv(s, w) && Enabled(s, a) && InRequest(s, t) && HeaderDone(s, t) && t < |Next(s, a).threads|
    ensures HeaderDone(Next(s, a), t)
  {
    hide Inv, Next, Enabled, Headed;
    if Next(s, a).threads[t].pc.Closing? {
      EntersClosing(s, a, t);
      if s.threads[t].pc.Closing? {
        HeaderStays(s, w, a, t);
        ClosingKeepsBuf(s, a, t);
        SameHeaded(Next(s, a).chunks, s.bufs[s.threads[t].pc.buf], Next(s, a).bufs[s.threads[t].pc.buf],
                   s.threads[t].pc.id);
      } else {
        WritesOwnHeader(s, w, t);
      }
    }
  }

  /** The written size of a buffer has no part in its header. */
  lemma SameHeaded(chunks: map<ChunkId, Chunk>, x: Buf, y: Buf, id: nat)
    requires Headed(chunks, x, id) && x.(write := 0) == y.(write := 0)
    ensures Headed(chunks, y, id)
  {
  }

  lemma StaysTracked(s: Pool, w: Places, run: seq<Action>, a: Action, t: Tid)
    requires Inv(s, w) && Enabled(s, a) && InRequest(s, t) && TracksThread(s, run, t) && InRequest(Next(s, a), t)
    ensures TracksThread(Next(s, a), run + [a], t)
  {
    hide Inv, Next, Enabled, Carried, CarriedId, Framing.PacketSize, HeaderDone;
    assert (run + [a])[..|run|] == run;
    CarriedStays(s, w, a, t);
    BeginsOutside(s, a, t);
    HeaderKept(s, w, a, t);
  }

  lemma BeginTracks(s: Pool, run: seq<Action>, a: Action, t: Tid)
    requires t < |s.threads| && a.Begin? && a.t == t && a.dataSize < U16_LIMIT && !s.threads[t].pc.Closing?
    requires Carried(s, t) == Framing.PacketSize(a.dataSize) && CarriedId(s, t) == a.id
    ensures TracksThread(s, run + [a], t)
  {
    hide Carried, CarriedId, Framing.PacketSize;
  }

  lemma BeginsOutside(s: Pool, a: Action, t: Tid)
    requires Enabled(s, a) && InRequest(s, t)
    ensures !(a.Begin? && a.t == t)
  {
  }

  lemma EntersByBegin(s: Pool, w: Places, a: Action, t: Tid)
    requires Inv(s, w) && Enabled(s, a) && !InRequest(s, t) && InRequest(Next(s, a), t)
    ensures a.Begin? && a.t == t && a.dataSize < U16_LIMIT && Carried(Next(s, a), t) == Framing.PacketSize(a.dataSize)
    ensures CarriedId(Next(s, a), t) == a.id && !Next(s, a).threads[t].pc.Closing?
  {
    hide ChunksOk, FreeOk, ThreadsOk, OwnersOk, BufsOk, OpenOk, RefsOk;
    SameThreads(s, a);
    ThreadFacts(s, w, t);
    if a.WritePayload? || a.Share? || a.t != t || a.PushBack? || a.Drop? || a.EndThread? {
      PcIsOwn(s, a, t);
    }
  }

  lemma SameThreads(s: Pool, a: Action)
    requires Enabled(s, a)
    ensures |Next(s, a).threads| == |s.threads|
  {
  }

  lemma {:induction false} RunTracks(n: nat, run: seq<Action>) returns (w: Places)
    requires CanRun(Start(n), run)
    ensures Inv(After(Start(n), run), w) && Tracks(After(Start(n), run), run)
    decreases |run|
  {
    hide Inv, Next, Enabled, Tracks, After, CanRun, Start;
    if run == [] {
      StartHasInv(n);
      NothingAsked(n);
      w := map[];
    } else {
      var front, a := run[..|run| - 1], run[|run| - 1];
      assert run == front + [a];
      RunSnoc(Start(n), front, a);
      w := RunTracks(n, front);
      StepTracks(After(Start(n), front), w, front, a);
      NextKeepsInv(After(Start(n), front), w, a);
      w := PlacesAfter(After(Start(n), front), w, a);
    }
  }

  lemma NothingAsked(n: nat)
    ensures After(Start(n), []) == Start(n) && Tracks(Start(n), [])
  {
  }

  /** In every run of any number of threads: bytes are written outside a buffer exactly when a thread comes to write the
      header of a packet it asked for with more than 65531 bytes of payload. */
  lemma OverrunExactly(n: nat, run: seq<Action>)
    requires CanRun(Start(n), run)
    ensures After(Start(n), run).overrun <==>
            run != [] && run[|run| - 1].WriteHeader? &&
            var asked := Requested(run, run[|run| - 1].t); asked.Some? && asked.value > 65531
  {
    hide Inv, Next, Enabled, Tracks, After, CanRun, Start, InRequest, Framing.PacketSize, Requested;
    if run == [] {
      NothingAsked(n);
      NoOverrunYet(n);
    } else {
      var front, a := run[..|run| - 1], run[|run| - 1];
      assert run == front + [a];
      RunSnoc(Start(n), front, a);
      var w := RunTracks(n, front);
      OverrunStep(After(Start(n), front), a);
      if a.WriteHeader? {
        AskedBefore(After(Start(n), front), front, a);
      }
    }
  }

  lemma NoOverrunYet(n: nat)
    ensures !Start(n).overrun
  {
  }

  lemma AskedBefore(s: Pool, run: seq<Action>, a: Action)
    requires Tracks(s, run) && Enabled(s, a) && a.WriteHeader?
    ensures var asked := Requested(run + [a], a.t);
            asked.Some? && (Carried(s, a.t) < Framing.HEADER_SIZE <==> asked.value > 65531)
  {
    assert (run + [a])[..|run|] == run;
    assert InRequest(s, a.t);
    WritesStayInsideExactly(0, Requested(run, a.t).value);
  }

  lemma {:induction false} UnusedId(used: set<nat>) returns (id: nat)
    ensures id !in used && forall u :: u in used ==> u < id
    decreases |used|
  {
    if used == {} {
      id := 0;
    } else {
      var u :| u in used;
      id := UnusedId(used - {u});
      id := if u < id then id else u + 1;
      assert forall v :: v in used ==> v == u || v in used - {u};
    }
  }

  /** Thread t, left to itself, finishes its request: with a closed buffer of the size asked for, or with the
      overrun. */
  lemma {:induction false} FinishesAlone(s: Pool, w: Places, t: Tid) returns (own: seq<Action>, ref: RefId)
    requires Inv(s, w) && !s.overrun && InRequest(s, t) && HeaderDone(s, t)
    ensures CanRun(s, own) && |own| <= StepsLeft(s.threads[t])
    ensures forall a :: a in own ==> !a.Drop? && !a.WritePayload?
    ensures var s' := After(s, own);
            && (s'.overrun <==> Carried(s, t) < Framing.HEADER_SIZE)
            && (!s'.overrun ==> ref in s'.refs && IsClosed(s', s'.refs[ref])
                                && s'.bufs[s'.refs[ref]].alloc == Carried(s, t)
                                && Headed(s'.chunks, s'.bufs[s'.refs[ref]], CarriedId(s, t))
                                && t < |s'.threads| && s'.threads[t].pc.Idle?)
    decreases StepsLeft(s.threads[t])
  {
    hide Inv, Next, Enabled, CanRun, After, StepsLeft, Carried, CarriedId, OwnStep, HeaderDone, Headed;
    var c := UnusedId(s.chunks.Keys);
    var b := UnusedId(s.bufs.Keys);
    var r := UnusedId(s.refs.Keys);
    var a := OwnStep(s, t, c, b, r);
    OwnStepEnabled(s, w, t, c, b, r);
    OwnStepIsPlain(s, t, c, b, r);
    OwnStepLowers(s, a, t);
    OverrunStep(s, a);
    CarriedStays(s, w, a, t);
    NextKeepsInv(s, w, a);
    if a == CloseBuf(t) {
      own := [a];
      ref := ClosedHasToken(s, w, t);
      OneStep(s, a);
    } else if Next(s, a).overrun {
      own, ref := [a], 0;
      OneStep(s, a);
    } else {
      HeaderKept(s, w, a, t);
      own, ref := FinishesAlone(Next(s, a), PlacesAfter(s, w, a), t);
      FirstStep(s, a, own);
      own := [a] + own;
    }
  }

  lemma ClosedHasToken(s: Pool, w: Places, t: Tid) returns (ref: RefId)
    requires Inv(s, w) && Enabled(s, CloseBuf(t)) && HeaderDone(s, t)
    ensures var s' := Next(s, CloseBuf(t));
            && ref in s'.refs && IsClosed(s', s'.refs[ref]) && s'.bufs[s'.refs[ref]].alloc == Carried(s, t)
            && s'.refs[ref] == s.threads[t].pc.buf && Headed(s'.chunks, s'.bufs[s'.refs[ref]], CarriedId(s, t))
            && t < |s'.threads| && s'.threads[t].pc.Idle? && Framing.HEADER_SIZE <= Carried(s, t)
  {
    hide ChunksOk, FreeOk, ThreadsOk, OwnersOk, PcsOk, BufsOk, OpenOk, Headed;
    CloseSucceeds(s, w, t);
    var buf := s.threads[t].pc.buf;
    HeaderStays(s, w, CloseBuf(t), t);
    SameHeaded(Next(s, CloseBuf(t)).chunks, s.bufs[buf], Next(s, CloseBuf(t)).bufs[buf], s.threads[t].pc.id);
    assert HasToken(s.refs, buf);
    ref :| ref in s.refs && s.refs[ref] == buf;
  }

  lemma OneStep(s: Pool, a: Action)
    requires Enabled(s, a)
    ensures CanRun(s, [a]) && After(s, [a]) == Next(s, a)
  {
    assert CanRun(Next(s, a), []);
  }

  lemma FirstStep(s: Pool, a: Action, run: seq<Action>)
    requires Enabled(s, a) && CanRun(Next(s, a), run)
    ensures CanRun(s, [a] + run) && After(s, [a] + run) == After(Next(s, a), run)
  {
    assert ([a] + run)[1..] == run;
  }

  lemma OwnStepIsPlain(s: Pool, t: Tid, c: ChunkId, b: BufId, r: RefId)
    requires InRequest(s, t)
    ensures var a := OwnStep(s, t, c, b, r);
            && !a.Drop? && !a.WritePayload? && !a.Share? && a.t == t
            && a == OwnStep(s, t, if a.Pop? then a.newChunk else 0, if a.OpenSlot? then a.buf else 0,
                            if a.OpenSlot? then a.ref else 0)
            && (a.WriteHeader? ==> a == WriteHeader(t))
            && !Free(s, t) && StepsLeft(s.threads[t]) >= 1
  {
  }

  /** Every request a thread can make, in any reachable state, can be finished, and ends in the overrun exactly when it
      is for more than 65531 bytes of payload; otherwise there is a new finished buffer of its packet size. */
  lemma EveryRequestFinishes(n: nat, s: Pool, t: Tid, dataSize: nat, id: nat) returns (own: seq<Action>, ref: RefId)
    requires Reachable(n, s) && !s.overrun && Free(s, t) && dataSize < U16_LIMIT && id < U16_LIMIT
    ensures var run := [Begin(t, dataSize, id)] + own;
            && CanRun(s, run) && |own| <= 21 && (forall a :: a in run ==> !a.Drop? && !a.WritePayload?)
            && var s' := After(s, run);
            && (s'.overrun <==> dataSize > 65531)
            && (!s'.overrun ==> ref in s'.refs && IsClosed(s', s'.refs[ref])
                                && s'.bufs[s'.refs[ref]].alloc == Framing.HEADER_SIZE + dataSize
                                && Headed(s'.chunks, s'.bufs[s'.refs[ref]], id))
  {
    hide Inv, CanRun, After, Reachable, Headed;
    var w := ReachableHasInv(n, s);
    var a := Begin(t, dataSize, id);
    NextKeepsInv(s, w, a);
    own, ref := FinishesAlone(Next(s, a), w, t);
    FirstStep(s, a, own);
  }

  // ----- packets -----

  /** In every run of any number of threads: the buffer a thread closes has the size and starts with the header of the
      packet it asked for last. */
  lemma ClosedAsAsked(n: nat, run: seq<Action>, t: Tid)
    requires CanRun(Start(n), run + [CloseBuf(t)])
    ensures CanRun(Start(n), run) && t < |After(Start(n), run).threads| && After(Start(n), run).threads[t].pc.Closing?
    ensures var s' := After(Start(n), run + [CloseBuf(t)]);
            var b := After(Start(n), run).threads[t].pc.buf;
            var asked, id := Requested(run, t), RequestedId(run, t);
            && asked.Some? && id.Some? && asked.value <= 65531
            && IsClosed(s', b) && s'.bufs[b].alloc == Framing.HEADER_SIZE + asked.value
            && Headed(s'.chunks, s'.bufs[b], id.value)
  {
    hide Inv, Next, Enabled, Tracks, After, CanRun, Start, InRequest, Requested, RequestedId, Headed, IsClosed;
    RunSnoc(Start(n), run, CloseBuf(t));
    var w := RunTracks(n, run);
    ClosesTracked(After(Start(n), run), w, run, t);
  }

  lemma ClosesTracked(s: Pool, w: Places, run: seq<Action>, t: Tid)
    requires Tracks(s, run) && Enabled(s, CloseBuf(t))
    requires Inv(s, w)
    ensures t < |s.threads| && s.threads[t].pc.Closing?
    ensures var s' := Next(s, CloseBuf(t));
            var b := s.threads[t].pc.buf;
            var asked, id := Requested(run, t), RequestedId(run, t);
            && asked.Some? && id.Some? && asked.value <= 65531
            && IsClosed(s', b) && s'.bufs[b].alloc == Framing.HEADER_SIZE + asked.value
            && Headed(s'.chunks, s'.bufs[b], id.value)
  {
    hide Inv, Requested, RequestedId, Headed;
    assert InRequest(s, t);
    assert TracksThread(s, run, t);
    var ref := ClosedHasToken(s, w, t);
  }

  /** The writes of run through b, in order, are the pieces of payload from pos on, each where it belongs, as a
      BufferWrite makes them. */
  predicate Spells(run: seq<Action>, b: BufId, pos: nat, payload: seq<byte>)
    requires pos <= |payload|
    decreases |run|
  {
    if run == [] then pos == |payload|
    else
      var a := run[0];
      if a.WritePayload? && a.buf == b then
        && a.at == Framing.HEADER_SIZE + pos && pos + |a.data| <= |payload|
        && a.data == payload[pos..pos + |a.data|]
        && Spells(run[1..], b, pos + |a.data|, payload)
      else Spells(run[1..], b, pos, payload)
  }

  lemma {:induction false} SpelledIsWritten(c: seq<byte>, run: seq<Action>, b: BufId, pos: nat, payload: seq<byte>)
    requires pos <= |payload| && Spells(run, b, pos, payload) && |c| == Framing.HEADER_SIZE + |payload|
    ensures Written(c, run, b) == c[..Framing.HEADER_SIZE + pos] + payload[pos..]
    decreases |run|
  {
    if run != [] {
      var a := run[0];
      if a.WritePayload? && a.buf == b {
        var d := Overwritten(c, a.at, a.data);
        SpelledIsWritten(d, run[1..], b, pos + |a.data|, payload);
        assert d[..Framing.HEADER_SIZE + pos + |a.data|] == c[..Framing.HEADER_SIZE + pos] + a.data;
        assert payload[pos..] == a.data + payload[pos + |a.data|..];
      } else {
        SpelledIsWritten(c, run[1..], b, pos, payload);
      }
    }
  }

  /** What MakePacket is for: a thread asks for a buffer, closes it, and its payload is written while any number of
      threads do anything else. The buffer then holds that packet, id, size and payload. */
  lemma BufferHoldsItsPacket(n: nat, run: seq<Action>, t: Tid, later: seq<Action>, payload: seq<byte>)
    requires CanRun(Start(n), run + [CloseBuf(t)]) && CanRun(After(Start(n), run + [CloseBuf(t)]), later)
    requires CanRun(Start(n), run) && t < |After(Start(n), run).threads| && After(Start(n), run).threads[t].pc.Closing?
    requires LiveThroughout(After(Start(n), run + [CloseBuf(t)]), later, After(Start(n), run).threads[t].pc.buf)
    requires Requested(run, t) == Some(|payload|)
    requires Spells(later, After(Start(n), run).threads[t].pc.buf, 0, payload)
    ensures var b := After(Start(n), run).threads[t].pc.buf;
            var s' := After(After(Start(n), run + [CloseBuf(t)]), later);
            && |payload| <= 65531 && RequestedId(run, t).Some? && RequestedId(run, t).value < U16_LIMIT
            && IsClosed(s', b) && InChunk(s'.chunks, s'.bufs[b])
            && Content(s'.chunks, s'.bufs[b]) == Framing.MakePacket(RequestedId(run, t).value, payload)
  {
    hide CanRun, After, LiveThroughout, Requested, RequestedId, Spells, Written, Content, Reachable, Start, U16;
    ClosedAsAsked(n, run, t);
    var s, b := After(Start(n), run + [CloseBuf(t)]), After(Start(n), run).threads[t].pc.buf;
    RunIsReachable(n, run + [CloseBuf(t)]);
    BufferHoldsItsWrites(n, s, later, b);
    SpelledIsWritten(Content(s.chunks, s.bufs[b]), later, b, 0, payload);
  }

  lemma RunIsReachable(n: nat, run: seq<Action>)
    requires CanRun(Start(n), run)
    ensures Reachable(n, After(Start(n), run))
  {
  }

  // ----- references -----

  /** Which references exist after run and to which buffers, by the actions alone. */
  function References(refs: map<RefId, BufId>, run: seq<Action>): map<RefId, BufId>
    decreases |run|
  {
    if run == [] then refs
    else
      var next := match run[0]
                  case OpenSlot(_, buf, ref) => refs[ref := buf]
                  case Share(ref, copy) => if ref in refs then refs[copy := refs[ref]] else refs
                  case Drop(_, ref) => refs - {ref}
                  case _ => refs;
      References(next, run[1..])
  }

  lemma StepReferences(s: Pool, w: Places, a: Action)
    requires Enabled(s, a)
    requires Inv(s, w)
    ensures Next(s, a).refs == References(s.refs, [a])
  {
    hide Inv;
    assert [a][1..] == [];
    if a.OpenSlot? { OpenSucceeds(s, w, a.t); }
  }

  lemma ReferencesFirst(refs: map<RefId, BufId>, run: seq<Action>)
    requires run != []
    ensures References(refs, run) == References(References(refs, [run[0]]), run[1..])
  {
    assert [run[0]][1..] == [];
  }

  lemma {:induction false} RunReferences(s: Pool, w: Places, run: seq<Action>)
    requires Inv(s, w) && CanRun(s, run)
    ensures After(s, run).refs == References(s.refs, run)
    decreases |run|
  {
    hide Inv, Next, Enabled;
    if run != [] {
      StepReferences(s, w, run[0]);
      ReferencesFirst(s.refs, run);
      NextKeepsInv(s, w, run[0]);
      RunReferences(Next(s, run[0]), PlacesAfter(s, w, run[0]), run[1..]);
    }
  }

  /** A buffer lives exactly as long as somebody holds a reference to it: those opened and shared, less those
      dropped. */
  lemma BufferLivesWhileReferenced(n: nat, run: seq<Action>, b: BufId)
    requires CanRun(Start(n), run)
    ensures After(Start(n), run).refs == References(map[], run)
    ensures b in After(Start(n), run).bufs <==>
            exists r :: r in References(map[], run) && References(map[], run)[r] == b
  {
    hide CanRun, After, ChunksOk, FreeOk, ThreadsOk, OwnersOk, PcsOk, BufsOk, OpenOk;
    StartHasInv(n);
    RunReferences(Start(n), map[], run);
    var w := RunKeepsInv(Start(n), map[], run);
    assert HasToken(After(Start(n), run).refs, b) <==>
           exists r :: r in References(map[], run) && References(map[], run)[r] == b;
  }

  /** Whoever holds a reference to a finished buffer may share it, drop it and write its payload at any time. */
  lemma HoldersAreNeverBlocked(n: nat, s: Pool, t: Tid, ref: RefId, copy: RefId, at: nat, data: seq<byte>)
    requires Reachable(n, s) && !s.overrun && ref in s.refs && IsClosed(s, s.refs[ref])
    ensures copy !in s.refs ==> Enabled(s, Share(ref, copy))
    ensures Free(s, t) ==> Enabled(s, Drop(t, ref)) && Enabled(s, EndThread(t))
    ensures Framing.HEADER_SIZE <= at && at + |data| <= s.bufs[s.refs[ref]].alloc ==>
              Enabled(s, WritePayload(s.refs[ref], at, data))
  {
    hide Inv, Reachable, Enabled;
    var w := ReachableHasInv(n, s);
    BufFacts(s, w, s.refs[ref]);
    ClosedAllows(s, t, ref, copy, at, data);
  }

  lemma ClosedAllows(s: Pool, t: Tid, ref: RefId, copy: RefId, at: nat, data: seq<byte>)
    requires !s.overrun && ref in s.refs && IsClosed(s, s.refs[ref]) && BufOk(s.chunks, s.bufs[s.refs[ref]])
    ensures copy !in s.refs ==> Enabled(s, Share(ref, copy))
    ensures Free(s, t) ==> Enabled(s, Drop(t, ref)) && Enabled(s, EndThread(t))
    ensures Framing.HEADER_SIZE <= at && at + |data| <= s.bufs[s.refs[ref]].alloc ==>
              Enabled(s, WritePayload(s.refs[ref], at, data))
  {
  }

  // ----- reuse -----

  /** A chunk is only ever created while every other one is in use: in a slot or about to be, with a deleter, or alive
      through buffers. */
  lemma NewChunkOnlyWhenNoneIsFree(n: nat, s: Pool, a: Action, c: ChunkId, other: ChunkId)
    requires Reachable(n, s) && Enabled(s, a) && c !in s.chunks && c in Next(s, a).chunks && other in s.chunks
    ensures exists p :: IsAt(s, other, p) && !p.Pooled?
  {
    hide Reachable;
    EveryChunkHasOnePlace(n, s, other);
    CreatedByPop(s, a, c);
    var p :| IsAt(s, other, p);
    assert !p.Pooled?;
  }

  lemma CreatedByPop(s: Pool, a: Action, c: ChunkId)
    requires Enabled(s, a) && c !in s.chunks && c in Next(s, a).chunks
    ensures a.Pop? && a.newChunk == c && s.free == []
  {
  }

  lemma ThreeSteps(s: Pool, a: Action, b: Action, c: Action)
    requires Enabled(s, a) && Enabled(Next(s, a), b) && Enabled(Next(Next(s, a), b), c)
    ensures CanRun(s, [a, b, c]) && After(s, [a, b, c]) == Next(Next(Next(s, a), b), c)
  {
    hide Enabled, Next;
    OneStep(Next(Next(s, a), b), c);
    FirstStep(Next(s, a), b, [c]);
    FirstStep(s, a, [b] + [c]);
    assert [a] + ([b] + [c]) == [a, b, c];
  }

  /** The last three steps of a request with room in its slot: the buffer starts where the used part ended. */
  lemma OpensInSlot(s: Pool, w: Places, t: Tid, b: BufId, r: RefId)
    requires !s.overrun && t < |s.threads| && s.threads[t].pc.Opening? && s.threads[t].ret.None? && SlotInUse(s, t)
    requires Framing.HEADER_SIZE <= s.threads[t].pc.size && b !in s.bufs && r !in s.refs
    requires Inv(s, w)
    ensures var run := [OpenSlot(t, b, r), WriteHeader(t), CloseBuf(t)];
            var c, size := s.threads[t].slot.value, s.threads[t].pc.size;
            && CanRun(s, run)
            && var s' := After(s, run);
            && s'.bufs == s.bufs[b := Buf(c, s.chunks[c].used, size, size)] && s'.free == s.free
            && s'.chunks.Keys == s.chunks.Keys && s'.chunks[c].used == s.chunks[c].used + size
            && t < |s'.threads| && s'.threads[t].pc.Idle? && s'.threads[t].slot == Some(c)
  {
    hide Inv, U16, Framing.IsPacket;
    var c, size := s.threads[t].slot.value, s.threads[t].pc.size;
    OpenSucceeds(s, w, t);
    var s1 := OpenStep(s, t, b, r);
    NextKeepsInv(s, w, OpenSlot(t, b, r));
    BufFacts(s1, w, b);
    var s2 := HeaderStep(s1, t);
    NextKeepsInv(s1, w, WriteHeader(t));
    BufFacts(s2, w, b);
    CloseSucceeds(s2, w, t);
    ThreeSteps(s, OpenSlot(t, b, r), WriteHeader(t), CloseBuf(t));
  }

  /** A request that fits in what is left of the thread's slot is served from there: five steps, no lock, no new
      chunk. */
  lemma ServedFromSlot(n: nat, s: Pool, t: Tid, dataSize: nat, id: nat, b: BufId, r: RefId)
    requires Reachable(n, s) && !s.overrun && Free(s, t) && s.threads[t].slot.Some?
    requires s.threads[t].slot.value in s.chunks && dataSize <= 65531 && id < U16_LIMIT
    requires Framing.HEADER_SIZE + dataSize <= s.chunks[s.threads[t].slot.value].FreeSize()
    requires b !in s.bufs && r !in s.refs
    ensures var run := [Begin(t, dataSize, id), Check(t)] + [OpenSlot(t, b, r), WriteHeader(t), CloseBuf(t)];
            var c, size := s.threads[t].slot.value, Framing.HEADER_SIZE + dataSize;
            && CanRun(s, run)
            && var s' := After(s, run);
            && s'.bufs == s.bufs[b := Buf(c, s.chunks[c].used, size, size)] && s'.free == s.free
            && s'.chunks.Keys == s.chunks.Keys && s'.chunks[c].used == s.chunks[c].used + size
  {
    hide Inv, Reachable, CanRun, After;
    var w := ReachableHasInv(n, s);
    SlotIsClosed(s, w, t);
    var s1 := BeginStep(s, t, dataSize, id);
    NextKeepsInv(s, w, Begin(t, dataSize, id));
    var s2 := CheckStep(s1, t);
    NextKeepsInv(s1, w, Check(t));
    OpensInSlot(s2, w, t, b, r);
    var last := [OpenSlot(t, b, r), WriteHeader(t), CloseBuf(t)];
    FirstStep(s1, Check(t), last);
    FirstStep(s, Begin(t, dataSize, id), [Check(t)] + last);
    assert [Begin(t, dataSize, id)] + ([Check(t)] + last) == [Begin(t, dataSize, id), Check(t)] + last;
  }

  /** A thread that ends keeps no chunk: its slot goes to the deleter at once if no live buffer needs it, and else with
      the last of them. */
  lemma EndedThreadKeepsNothing(n: nat, s: Pool, t: Tid)
    requires Enabled(s, EndThread(t)) && s.threads[t].slot.Some?
    requires Reachable(n, s)
    ensures var s' := EndStep(s, t);
            var c := s.threads[t].slot.value;
            && t < |s'.threads| && s'.threads[t].slot.None? && s'.threads[t].pc.Idle?
            && (if Owned(s.bufs, c) then IsAt(s', c, Loose) else IsAt(s', c, InDeleter(t)))
  {
    hide Inv, Reachable, Owned, Refers;
    var w := ReachableHasInv(n, s);
    SlotIsOwn(s, w, t);
    EndsAlone(s, t);
  }

  lemma SlotIsOwn(s: Pool, w: Places, t: Tid)
    requires Inv(s, w) && t < |s.threads| && s.threads[t].slot.Some?
    ensures forall u :: 0 <= u < |s.threads| && u != t ==> !Refers(s.threads[u], s.threads[t].slot.value)
  {
    hide ChunksOk, FreeOk, OwnersOk, PcsOk, BufsOk, OpenOk, RefsOk;
    assert KeepsOk(s.threads[t], t, w);
    forall u | 0 <= u < |s.threads| && u != t ensures !Refers(s.threads[u], s.threads[t].slot.value) {
      assert KeepsOk(s.threads[u], u, w);
    }
  }

  lemma EndsAlone(s: Pool, t: Tid)
    requires Enabled(s, EndThread(t)) && s.threads[t].slot.Some?
    requires forall u :: 0 <= u < |s.threads| && u != t ==> !Refers(s.threads[u], s.threads[t].slot.value)
    ensures var s' := EndStep(s, t);
            var c := s.threads[t].slot.value;
            && t < |s'.threads| && s'.threads[t].slot.None? && s'.threads[t].pc.Idle?
            && (if Owned(s.bufs, c) then IsAt(s', c, Loose) else IsAt(s', c, InDeleter(t)))
  {
    hide Owned;
    var c := s.threads[t].slot.value;
    var s1 := s.(threads := s.threads[t := s.threads[t].(slot := None)]);
    forall u | 0 <= u < |s1.threads| ensures !Refers(s1.threads[u], c) {
      assert u != t ==> s1.threads[u] == s.threads[u];
    }
  }

  /** The last reference to the last buffer of a chunk nobody has in its slot sends it to the deleter, and the deleter
      back to the pool, on top. */
  lemma LastDropReturnsChunk(n: nat, s: Pool, t: Tid, ref: RefId)
    requires Enabled(s, Drop(t, ref)) && !HasToken(s.refs - {ref}, s.refs[ref])
    requires !Owned(s.bufs - {s.refs[ref]}, s.bufs[s.refs[ref]].owner)
    requires forall u :: 0 <= u < |s.threads| ==> s.threads[u].slot != Some(s.bufs[s.refs[ref]].owner)
    requires Reachable(n, s)
    ensures var c, s' := s.bufs[s.refs[ref]].owner, DropStep(s, t, ref);
            && t < |s'.threads| && s'.threads[t].ret == Some(c) && Enabled(s', PushBack(t))
            && PushBackStep(s', t).free == s.free + [c]
  {
    hide Inv, Reachable, HasToken, Owned, Refers, Enabled;
    var w := ReachableHasInv(n, s);
    DropFacts(s, t, ref);
    LooseWithoutSlot(s, w, s.refs[ref]);
    DropsLast(s, t, ref);
  }

  lemma DropFacts(s: Pool, t: Tid, ref: RefId)
    requires Enabled(s, Drop(t, ref))
    ensures ref in s.refs && s.refs[ref] in s.bufs && !s.overrun && t < |s.threads|
  {
  }

  lemma DropsLast(s: Pool, t: Tid, ref: RefId)
    requires Enabled(s, Drop(t, ref)) && !HasToken(s.refs - {ref}, s.refs[ref])
    requires !Owned(s.bufs - {s.refs[ref]}, s.bufs[s.refs[ref]].owner)
    requires forall u :: 0 <= u < |s.threads| ==> !Refers(s.threads[u], s.bufs[s.refs[ref]].owner)
    ensures var c, s' := s.bufs[s.refs[ref]].owner, DropStep(s, t, ref);
            && t < |s'.threads| && s'.threads[t].ret == Some(c) && Enabled(s', PushBack(t))
            && PushBackStep(s', t).free == s.free + [c]
  {
    hide HasToken, Owned, Refers;
  }

  lemma LooseWithoutSlot(s: Pool, w: Places, b: BufId)
    requires Inv(s, w) && b in s.bufs
    requires forall t :: 0 <= t < |s.threads| ==> s.threads[t].slot != Some(s.bufs[b].owner)
    ensures forall t :: 0 <= t < |s.threads| ==> !Refers(s.threads[t], s.bufs[b].owner)
  {
    hide ChunksOk, FreeOk, PcsOk, BufsOk, OpenOk, RefsOk;
    var c := s.bufs[b].owner;
    assert KeptOk(s.threads, c, w[c]);
    NobodyRefers(s.threads, w, c);
  }
}
