# A verified model of the epoll game server

Dafny 4.11 project. `dafny verify dfyconfig.toml` checks everything.

The server is modelled as five parts that meet at a few shared values:

- **Send side.** `Chunks`, `SendBuffers` and `SendBufferPool` model the pooled bump allocator: chunks of 0xFFFF bytes, one slot
  per thread, a locked pool, a deleter that returns a chunk when its last reference dies. `SendBuffers` has the classes as one
  thread uses them; `SendBufferPool` is a step system for any number of threads with one step per access to shared state (the
  steps of `MakeSendBuffer`, payload writes after `Close`, sharing and dropping references, the end of a thread). Shared
  references are tokens. `Delivery` puts sessions with their send queues on top of it.
- **Receive side.** `Framing` is the header, the greedy cut of a stream, the loop of `OnRecv` and the packet writer.
  `Receiving` is the receive step on values and its runs, `Sessions` the classes `RecvBuffer` and `Session` over byte arrays.
  `EndToEnd` joins the two sides; `Broadcasts` makes packets and sends them through the classes.
- **Packets.** `Codec` has the payloads field by field and readers for them, `Packets` the 16-bit sizes and the exact limits,
  `PacketWriters` the class `BufferWrite` and the `MakePacket` loops writing into pooled buffers, `Relays` the translation
  made by `HandlePacket`.
- **Room.** `RoomPackets` joins the room to the packets. `Geometry` is the arithmetic of a step over exact reals, truncated to integers; `Monsters` one monster over every
  history of hits and rounds; `GameRooms` the classes of the room, tied to those values, and the whole room over every run.
- **Concurrency.** `JobQueues` (any number of pushing and executing threads) and `Guards` (the compare-exchange guards).

Classes are used where the source updates objects in place; each method is tied to a function on values, and the promises are
proved about those functions over all runs.

## What the proofs say about the code

Where code and intent differ, the model follows the code, an input shows the difference, and the exact condition is proved.

- `_bufferSize` is never assigned (CoreLib/RecvBuffer.h:32), so a receive buffer is only rewound when it is empty. With the
  value left at 0, `recv` has room after a run exactly when less than the capacity has arrived since the buffer was last empty
  (`RoomAsWritten`), and a well-formed stream can fill it and get its session dropped (`StarvesAsWritten`). With any positive
  value no run ever starves (`NeverStarves`); which values keep the copy of `Clean` from overlapping itself is exact
  (`CopyIsDisjointExactly`).
- A header whose size field is 0 makes the loop of `OnRecv` run forever (`ZeroHeaderStalls`), and nothing else does
  (`LoopEndsExactlyWhenNotStalled`). Receiving is modelled for streams in which this does not occur.
- `Send` clears the queue whatever `sendmsg` returned: bytes are lost exactly in the runs with a short or failed send, or a
  disconnect with bytes queued (`NothingLostExactlyWhenSentInFull`), and any part of a packet can be lost
  (`AnyPartCanBeLost`).
- The packet size is the 16-bit sum of payload and header. Header and payload are written past the end of their buffer exactly
  when a packet with more than 65531 bytes of payload was asked for (`OverrunExactly`), and every such request ends that way
  (`EveryRequestFinishes`). A client's chat of 65523 to 65526 bytes of text is one (`LongChatOverrunsThePool`).
- `Dispatch` compares with a snapshot taken before its second test, so two threads can be inside
  (`DispatchCanAdmitTwo`); a run is exclusive exactly if no compare-exchange that expects true finds true.
- Payload sizes are cut to 16 bits. Move lists are exact up to 2730 entries, attack lists up to 8191, chats up to 65522 bytes
  of text although a client can send 65526 (the last four overrun), player notices up to 24 bytes of name, load packets as long as they fit and the
  names take no more than the bytes of the records that are not written.
- A monster standing on the border attacks without its attack being announced (`AttackIsAnnouncedInside`,
  `BorderAttackIsSilent`).
- With two threads in `Execute` a later job can run first (`TwoExecutorsCanReorder`); a run is in insertion order exactly when
  no thread runs a job while another has jobs of an earlier batch left (`FifoExactlyWhenNobodyOvertakes`).

## Model

| member | source | states |
|---|---|---|
| `Chunks.WriteIsLocal` | CoreLib/SendBuffer.cpp:27-50 | a write through one range of a chunk reads back there and changes no disjoint range |
| `SendBuffers.SendBufferChunk.Reset` | CoreLib/SendBuffer.cpp:27-31 | the chunk is closed and empty, its bytes untouched |
| `SendBuffers.SendBufferChunk.Open` | CoreLib/SendBuffer.cpp:33-43 | asserts, refuses or opens exactly as the chunk value decides; a buffer starts at the used size and fits |
| `SendBuffers.SendBufferChunk.Close` | CoreLib/SendBuffer.cpp:45-50 | closes an open chunk and advances the used size by what was written; asserts on a closed one; the bound is kept when the sum is within the chunk |
| `SendBuffers.SendBuffer.Close` | CoreLib/SendBuffer.cpp:12-17 | asserts when more was written than allocated, else records the size and closes the owner |
| `SendBuffers.SendBufferManager.Pop` | CoreLib/SendBuffer.cpp:73-86 | takes the chunk pushed last, or a new one when the pool is empty |
| `SendBuffers.SendBufferManager.Push` | CoreLib/SendBuffer.cpp:88-92 | the chunk becomes the next one to be taken |
| `SendBuffers.SendBufferManager.Open` | CoreLib/SendBuffer.cpp:52-71 | reuses the slot when the size fits, else a reset chunk; never null; asserts exactly on an open slot or a size above a chunk |
| `SendBuffers.MakeSendBuffer` | GameBS/BS_PacketHandler.h:240-252 | for any 16-bit payload size: an overrun exactly above 65531; else a closed buffer that starts with the header of a whole packet, earlier bytes of the slot untouched |
| `SendBufferPool.NextKeepsInv` | CoreLib/SendBuffer.cpp:12-98 | every step of every thread keeps the allocator invariant: one place per chunk, buffers inside their chunks and disjoint, open chunks only under the thread writing a header |
| `SendBufferPool.LiveBuffersNeverOverlap` | CoreLib/SendBuffer.cpp:33-50 | in every reachable state of any number of threads live buffers are in bounds and pairwise disjoint, and closed ones carry their header |
| `SendBufferPool.AllocatorNeverCrashes` | CoreLib/SendBuffer.cpp:14-71 | for requests of every 16-bit size no assertion fires, no null buffer is dereferenced and no chunk is used past 0xFFFF, in every interleaving |
| `SendBufferPool.EveryChunkHasOnePlace` | CoreLib/SendBuffer.cpp:52-98 | every chunk is in exactly one place: once in the pool, one slot, one thread's hand, one running deleter, or alive through buffers alone |
| `SendBufferPool.ResetOnlyUnusedChunks` | CoreLib/SendBuffer.cpp:52-68 | `Reset` is only applied to a chunk no live buffer points into |
| `SendBufferPool.StepKeepsContent` | CoreLib/SendBuffer.cpp:27-50 | one step of any thread leaves the bytes of every closed buffer it does not write through |
| `SendBufferPool.StepKeepsBytes` | CoreLib/SendBuffer.cpp:12-98 | a step of any thread leaves the place and the bytes of every buffer, open or closed, that it neither frees nor writes |
| `SendBufferPool.PayloadIsWritten` | GameBS/BS_PacketHandler.h:34-42 | a payload write puts its bytes where it says, leaves the rest of its buffer, and every other buffer, as they were |
| `SendBufferPool.BufferHoldsItsWrites` | GameBS/BS_PacketHandler.h:34-42 | over any run, from `Close` to the last reference, a buffer holds what it held at `Close` with the writes through it applied in order |
| `SendBufferPool.ClosedAsAsked` | GameBS/BS_PacketHandler.h:240-252 | the buffer a thread closes has the size, and starts with the header, id and size, of the packet it asked for last |
| `SendBufferPool.BufferHoldsItsPacket` | GameBS/BS_PacketHandler.h:134-252 | asked for, closed and then written field by field while all threads go on, a buffer holds exactly that packet |
| `SendBufferPool.BufferLivesWhileReferenced` | CoreLib/SendBuffer.h:16-32 | a buffer exists exactly as long as a reference does, of those the run opened and shared less those it dropped |
| `SendBufferPool.HoldersAreNeverBlocked` | CoreLib/SendBuffer.h:16-32 | whoever holds a reference to a finished buffer can share it, drop it and write its payload at any time |
| `SendBufferPool.NewChunkOnlyWhenNoneIsFree` | CoreLib/SendBuffer.cpp:73-86 | a chunk is created only while every other chunk is in use |
| `SendBufferPool.ServedFromSlot` | CoreLib/SendBuffer.cpp:52-71 | a request that fits in what is left of the slot is served there in five steps, right behind the used part |
| `SendBufferPool.EndedThreadKeepsNothing` | CoreLib/SendBuffer.cpp:52-98 | the slot of a thread that ends goes to the deleter at once, or stays with its live buffers |
| `SendBufferPool.LastDropReturnsChunk` | CoreLib/SendBuffer.cpp:94-98 | the last reference to the last buffer of a chunk without a slot sends the chunk back on top of the pool |
| `SendBufferPool.ContentIsStable` | CoreLib/SendBuffer.cpp:12-98 | over any run, from `Close` to the last reference, only writes through the buffer itself change its bytes |
| `SendBufferPool.AllocatorAlwaysProgresses` | CoreLib/SendBuffer.cpp:52-98 | a thread inside the allocator is never blocked; each step of its own lowers a bound of 21 unless it is the overrun |
| `SendBufferPool.WritesStayInsideExactly` | GameBS/BS_PacketHandler.h:242-247 | header and payload fit the packet size asked for exactly up to 65531 bytes; a larger payload ends outside the chunk |
| `SendBufferPool.OverrunExactly` | GameBS/BS_PacketHandler.h:240-252 | in every run of any threads the overrun happens exactly when a thread writes the header of a packet it asked for with more than 65531 bytes |
| `SendBufferPool.EveryRequestFinishes` | GameBS/BS_PacketHandler.h:240-252 | in any reachable state every request can be finished, in a closed buffer of its size or, exactly above 65531 bytes, in the overrun |
| `Delivery.AdvanceKeepsInv` | CoreLib/Session.cpp:15-59 | every event of sessions and allocator keeps queued references alive with the bytes pushed, and the wire equal to what left the queue |
| `Delivery.VectorReadsContents` | CoreLib/Session.cpp:25-41 | the address vector built for `sendmsg` reads the bytes of the queued buffers in queue order |
| `Delivery.SendsLikeACopier` | CoreLib/Session.cpp:15-59 | in every run, lossy ones too, wire and queue are what a session would have that copies each buffer when it is pushed and never looks at the pool again |
| `Delivery.LogIsWhatWasPushed` | CoreLib/Session.cpp:15-59 | the log of a session is what the events of the run pushed to it: the bytes of each buffer at its push, none by a Send after a disconnect |
| `Delivery.PushedAsWritten` | GameBS/BS_PacketHandler.h:134-252 | a packet asked for, closed and written is logged as that packet when a reference to it is pushed |
| `Delivery.DeliveredInOrder` | CoreLib/Session.cpp:15-59 | wire plus queued bytes are all the run pushed, in push order, if and only if no byte was lost; framing the wire then gives the sent packets |
| `Delivery.NothingLostExactlyWhenSentInFull` | CoreLib/Session.cpp:44-52 | bytes are lost exactly in runs with a short or failed send or a disconnect with bytes queued |
| `Delivery.AnyPartCanBeLost` | CoreLib/Session.cpp:44-52 | for each packet and each number of bytes taken there is a run in which just these are sent and the rest is lost |
| `Delivery.DisconnectedIsSilent` | CoreLib/Session.cpp:17-18 | once disconnected a session puts nothing more on the wire in any run |
| `Delivery.SenderMayAlwaysPush` | CoreLib/Session.cpp:15-59 | an idle sender can always push or send a finished buffer it has a reference to, and disconnect |
| `Delivery.SenderCanAlwaysFinish` | CoreLib/Session.cpp:25-44 | between queueing and `sendmsg` no address in the vector dangles, and it still reads what is queued |
| `EndToEnd.PeerHandlesWhatWasPushed` | CoreLib/Session.cpp:15-95 | a peer with this receive path handles exactly the packets pushed and sent, in order, however threads interleave and the stream is cut |
| `EndToEnd.LongChatOverrunsThePool` | GameBS/BS_GameSession.cpp:110-133 | a client's chat of 65523 to 65526 bytes of text leads to the overrun, in any reachable state |
| `Framing.FrameAccountsForEveryByte` | GameBS/BS_GameSession.cpp:28-52 | packets and tail together are the input, and the tail is shorter than the largest packet |
| `Framing.FrameIsIncremental` | GameBS/BS_GameSession.cpp:28-52 | framing a prefix and then its tail with what follows is framing the whole |
| `Framing.StallIsPermanent` | GameBS/BS_GameSession.cpp:39-48 | once a zero size is in front, no further bytes help |
| `Framing.LoopEndsExactlyWhenNotStalled` | GameBS/BS_GameSession.cpp:28-52 | the loop ends if and only if it meets no header of size zero |
| `Framing.ZeroHeaderStalls` | GameBS/BS_GameSession.cpp:38-48 | a header with size zero, whatever follows, keeps the loop from ever ending |
| `Framing.OnRecv` | GameBS/BS_GameSession.cpp:28-52 | the loop hands over exactly the greedy framing and returns the length of it |
| `Framing.MadePacketReadsBack` | GameBS/BS_PacketHandler.h:240-252 | a made packet has the id, size and payload it was made from |
| `Framing.FrameOfPackets` | GameBS/BS_GameSession.cpp:28-52 | concatenated packets and an incomplete tail are cut back into just these |
| `Framing.WriterThenFramer` | GameBS/BS_PacketHandler.h:240-252 | for every sequence of messages framing what was written gives the same sequence and consumes every byte |
| `Receiving.ReceiveFollows` | CoreLib/Session.cpp:66-95 | a read keeps handled packets and unread bytes equal to the framing of all bytes received; it stays connected exactly if it completed a packet |
| `Receiving.ReceivedIsFramed` | CoreLib/Session.cpp:66-95 | the same over every run, whatever the reads |
| `Receiving.ChoppingDoesNotMatter` | CoreLib/Session.cpp:66-95 | two choppings of the same bytes hand over the same packets and leave the same tail |
| `Receiving.FittingReadsAreReceived` | CoreLib/Session.cpp:66-95 | if the whole stream has no zero size no read of it meets one, however it is cut |
| `Receiving.WrittenMessagesArrive` | CoreLib/Session.cpp:66-95 | what a writer wrote arrives unchanged through any chopping |
| `Receiving.ConnectedExactlyWhenEveryReadCompletes` | CoreLib/Session.cpp:86-90 | a session is still connected exactly if each read delivered bytes and completed a packet |
| `Receiving.CleanKeepsUnread` | CoreLib/RecvBuffer.cpp:17-35 | for any threshold `Clean` keeps the unread bytes, the cursor order, and does not shrink the free space |
| `Receiving.RoomAfterClean` | CoreLib/RecvBuffer.cpp:17-35 | for one `Clean`: there is room afterwards if and only if a threshold is set, nothing is unread, or there was room |
| `Receiving.RoomAsWritten` | CoreLib/RecvBuffer.cpp:17-35 | over every run with the threshold as written: room is left exactly when less than the capacity arrived since the buffer was last empty |
| `Receiving.CopyIsDisjointExactly` | CoreLib/RecvBuffer.cpp:27-33 | for any threshold and capacity the copy of an n-byte tail never overlaps itself exactly when 2n is at most capacity minus threshold plus 1 |
| `Receiving.CompactionAsIntended` | CoreLib/RecvBuffer.cpp:27-33 | with the intended threshold the copied ranges are disjoint and a full buffer is free afterwards |
| `Receiving.NeverStarves` | CoreLib/RecvBuffer.cpp:17-35 | with any positive threshold no run leaves `recv` without room |
| `Receiving.StarvesAsWritten` | CoreLib/RecvBuffer.h:32-32 | with the threshold as written a legal stream leaves no room and the next read drops the session |
| `Sessions.RecvBuffer.Clean` | CoreLib/RecvBuffer.cpp:17-35 | in place, the bytes between the cursors survive a forward byte copy; `memcpy` is defined when the ranges are disjoint, as `CopyIsDisjointExactly` says |
| `Sessions.RecvBuffer.OnRead` | CoreLib/RecvBuffer.cpp:37-44 | drops that many unread bytes from the front, or refuses more than there are |
| `Sessions.RecvBuffer.OnWrite` | CoreLib/RecvBuffer.cpp:46-53 | makes that many bytes at the write cursor readable, or refuses more than fit |
| `Sessions.Session.ReciveMessage` | CoreLib/Session.cpp:66-95 | refines the receive step; the queue to send survives exactly if the session stays connected |
| `Sessions.Session.Disconnect` | CoreLib/Session.cpp:97-102 | unread bytes stay, the queue to send is dropped |
| `Sessions.Session.PushBuffer` | CoreLib/Session.cpp:55-59 | the buffer is queued last and nothing is sent |
| `Sessions.Session.Send` | CoreLib/Session.cpp:15-53 | offers the queued bytes in order, puts the accepted prefix on the wire and empties the queue |
| `Broadcasts.SendMoves` | GameBS/BS_GameRoom.cpp:260-261 | a move list made and sent on an idle connected session puts just its packet on the wire, or the part taken |
| `Broadcasts.MakePayload` | GameBS/BS_PacketHandler.h:184-193 | made and then written, the buffer holds the packet of id and payload; overrun exactly above 65531 bytes |
| `Broadcasts.SendPacket` | CoreLib/Session.cpp:15-53 | that packet, sent on an idle connected session, is on the wire, or the part of it taken |
| `Broadcasts.Broadcast` | GameBS/BS_GameRoom.cpp:141-147 | each session is offered what it has queued and then the buffer, without disturbing the others |
| `Sessions.Gather` | CoreLib/Session.cpp:28-36 | the loop over the queue collects the bytes of all buffers in order |
| `Codec.AllFitExactly` | GameBS/BS_PacketHandler.h:34-42 | all writes succeed if and only if the fields fit together, and then nothing is dropped |
| `Codec.WritesWholeFields` | GameBS/BS_PacketHandler.h:34-42 | what is written are exactly the fields that fit behind those written before, each whole, in order |
| `Codec.TakesMove` | GameBS/BS_PacketHandler.h:145-150 | a move takes 24 bytes and is read back, whatever follows |
| `Codec.TakesAttack` | GameBS/BS_PacketHandler.h:232-233 | an attack takes 8 bytes and is read back |
| `Codec.TakesPlayer` | GameBS/BS_PacketHandler.h:90-98 | a player takes 25 bytes and its name and is read back |
| `Codec.TakesMonster` | GameBS/BS_PacketHandler.h:104-113 | a monster takes 29 bytes and its name and is read back |
| `Packets.SentIsPacket` | GameBS/BS_PacketHandler.h:240-252 | a buffer is made without overrun exactly if the 16-bit payload size is at most 65531, and then is a whole packet |
| `Packets.CarriesExactlyWhatFits` | GameBS/BS_PacketHandler.h:34-42 | a packet carries all its fields exactly if they fit in the announced size |
| `Packets.MoveListsAreExact` | GameBS/BS_PacketHandler.h:134-153 | size() is the number of bytes of the fields; no write fails and the receiver gets the list back exactly up to 2730 moves |
| `Packets.AttackListsAreExact` | GameBS/BS_PacketHandler.h:221-237 | the same for attacks, exactly up to 8191 |
| `Packets.LoadWritesSucceedExactly` | GameBS/BS_PacketHandler.h:77-116 | every write of p players and m monsters succeeds exactly if the names take at most 15p + 19m bytes |
| `Packets.LoadsAreExact` | GameBS/BS_Packet.h:132-152 | both lists are read back exactly if the size does not overflow and the names fit, for all p and m |
| `Packets.NoticesAreExact` | GameBS/BS_PacketHandler.h:119-131 | a player notice is read back exactly if the name has at most 24 bytes, since its size ignores the name |
| `PacketWriters.BufferWrite.Write` | GameBS/BS_PacketHandler.h:34-42 | writes the field or drops it whole; touches nothing outside its region |
| `PacketWriters.MoveListSizeOf` | GameBS/BS_Packet.h:63-71 | the loop computes the size the limits are proved for |
| `PacketWriters.AttackListSizeOf` | GameBS/BS_Packet.h:180-188 | likewise for attacks |
| `PacketWriters.LoadSizeOf` | GameBS/BS_Packet.h:137-151 | likewise for the load packet |
| `PacketWriters.MakeMoveList` | GameBS/BS_PacketHandler.h:134-153 | for a list of any length the pooled buffer holds a whole packet that gives back the list, and is exactly its packet, just up to 2730 moves; it never overruns; earlier bytes of the slot are untouched |
| `PacketWriters.MakeAttackList` | GameBS/BS_PacketHandler.h:221-237 | likewise for attacks, up to 8191 |
| `PacketWriters.MakeLoad` | GameBS/BS_PacketHandler.h:77-116 | overruns exactly if the 16-bit size is above 65531; else the buffer holds a packet from which both lists are read back exactly if the size did not overflow and the names fit |
| `Relays.ReadI32Ptr` | GameBS/BS_PacketUtils.h:13-20 | the value at the offset, and the offset moved behind it |
| `Relays.ReadBufferStr` | GameBS/BS_PacketUtils.h:22-26 | that many bytes at the offset, and the offset moved behind them |
| `Relays.GameSession.HandlePacket` | GameBS/BS_GameSession.cpp:54-188 | makes the job of the relay or overruns; a login sets name and type, a move the position, nothing else the player |
| `Relays.LoginIsTaken` | GameBS/BS_GameSession.cpp:62-82 | a login sets type and name as sent and joins the room |
| `Relays.MoveIsRelayed` | GameBS/BS_GameSession.cpp:83-109 | others read one move of this client to the position sent, without target, and the player stands there from then on |
| `Relays.OthersLeavePlayer` | GameBS/BS_GameSession.cpp:110-187 | only a login or a move changes the player |
| `Relays.UnknownIsIgnored` | GameBS/BS_GameSession.cpp:185-187 | a packet of any other kind makes no job and changes nothing |
| `Relays.ChatsAreExact` | GameBS/BS_PacketHandler.h:156-167 | a chat packet is read back exactly up to 65522 bytes of text, and overruns exactly for the next four lengths |
| `Relays.ChatIsRelayed` | GameBS/BS_GameSession.cpp:110-133 | others read code, kind and text of a client's chat up to 65522 bytes; beyond, its relay overruns the buffer |
| `Relays.AttackIsRelayed` | GameBS/BS_GameSession.cpp:134-153 | others read an attack of this client with the skill sent |
| `Relays.HitIsRelayed` | GameBS/BS_GameSession.cpp:154-184 | hits on monsters are credited to the sender whatever attacker it names, and always take 10 |
| `Geometry.RangeTest` | GameBS/BS_Player.cpp:141-154 | the truncated distance test is: squared distance below 201 squared |
| `Geometry.ChaseStaysInside` | GameBS/BS_Player.cpp:130-136 | a chase step towards a target in the map stays in the map, truncation included |
| `Geometry.ChaseNears` | GameBS/BS_Player.cpp:130-136 | a step taken out of range comes at least 148.58 nearer |
| `Geometry.ChaseShrinksSquare` | GameBS/BS_Player.cpp:130-136 | and lowers the integer squared distance by at least 37653 |
| `Geometry.ChaseEnds` | GameBS/BS_Player.cpp:98-139 | from anywhere in the map at most 45 steps reach attack range of a standing target |
| `Monsters.NeverLeavesMap` | GameBS/BS_GameRoom.cpp:202-239 | no history of hits, respawns, wandering and chasing leads off the closed map |
| `Monsters.LifeOf` | GameBS/BS_Player.cpp:61-81 | within one life hp is 100 minus the damage, spawned means hp positive, and the target is the last player whose hit left the monster alive |
| `Monsters.HitsSinceSpawn` | GameBS/BS_GameRoom.cpp:188-200 | the same over every history, counted from the last spawn |
| `Monsters.DeadComesHome` | GameBS/BS_Player.cpp:170-178 | over every history that leaves a monster dead, the next round finds it alive where it first spawned, resting, with full hp and no target, starting nothing |
| `Monsters.WandersOneStep` | GameBS/BS_GameRoom.cpp:228-239 | a monster with nobody to follow goes 150 in its direction up to truncation, clamped into the map, at its height |
| `Monsters.ReportIsTrue` | GameBS/BS_GameRoom.cpp:211-253 | a round is silent exactly about a monster that rests; a move tells where the monster now is and whom it follows |
| `Monsters.AttackRate` | GameBS/BS_Player.cpp:185-193 | n rounds allow at most 1 + (n+1)/4 attacks, and none when n < 2 |
| `Monsters.AttackRateIsTight` | GameBS/BS_Player.cpp:98-107 | the bound is reached for every n |
| `Monsters.AttackIsAnnouncedInside` | GameBS/BS_GameRoom.cpp:211-249 | a round reports an attack exactly if one starts strictly inside the map; else the attack is reported as a move |
| `Monsters.BorderAttackIsSilent` | GameBS/BS_GameRoom.cpp:217-226 | a legal history leads to an unannounced attack |
| `Monsters.PursuitEndsInAttack` | GameBS/BS_GameRoom.cpp:213-226 | a monster following a standing player in the map attacks within 46 rounds |
| `GameRooms.EachLivesItsHistory` | GameBS/BS_GameRoom.cpp:202-302 | monsters do not interfere: a run of the room is one history per monster |
| `GameRooms.RoomKeepsItsPromises` | GameBS/BS_GameRoom.cpp:188-302 | containment, hp and attack rate hold for every monster in every run of the room |
| `GameRooms.EachAnnouncedOnce` | GameBS/BS_GameRoom.cpp:206-261 | each monster that does not rest is in the list for its kind, and the lists hold no more |
| `RoomPackets.RoundsAreRead` | GameBS/BS_GameRoom.cpp:241-261 | in every run, the packets made from a round are read back as exactly its attacks and its moves, for up to 2730 monsters |
| `GameRooms.MapInfo.InMonsterRect` | GameBS/BS_MapInfo.cpp:13-40 | clamps into the closed map, leaves coordinates inside alone, and reports whether it changed any |
| `GameRooms.Monster.TakeDemage` | GameBS/BS_Player.cpp:61-66 | lowers hp and despawns at zero or below |
| `GameRooms.Monster.ResetSpawn` | GameBS/BS_Player.cpp:170-178 | back to the start point with full hp and no target; not yet spawned |
| `GameRooms.Monster.Tick` | GameBS/BS_Player.cpp:185-193 | advances the cooldown only while attacking |
| `GameRooms.Monster.MoveTarget` | GameBS/BS_Player.cpp:98-139 | attacks exactly within squared distance 40401, else moves 150 towards the target |
| `GameRooms.GameRoom.constructor` | GameBS/BS_GameRoom.cpp:10-48 | a new room: monsters -1 to -n, each fresh, at its own start point and inside the map |
| `GameRooms.GameRoom.MonsterHit` | GameBS/BS_GameRoom.cpp:289-302 | changes one monster as the room step says, and nothing for an unknown code |
| `GameRooms.GameRoom.SpanMoster` | GameBS/BS_GameRoom.cpp:188-200 | respawns exactly the dead monsters |
| `GameRooms.GameRoom.MoveOne` | GameBS/BS_GameRoom.cpp:208-253 | one turn of the loop is the monster's act, with the same report |
| `GameRooms.GameRoom.MoveMosters` | GameBS/BS_GameRoom.cpp:202-263 | every monster acts once, in place, and the packet lists hold the reports in order |
| `GameRooms.GameRoom.RoundTask` | GameBS/BS_GameRoom.cpp:273-279 | the guarded body is the room step, and what it announces |
| `JobQueues.JobQueue.Push` | CoreLib/JobQueue.cpp:4-12 | the job is last in the queue and counted |
| `JobQueues.JobQueue.Execute` | CoreLib/JobQueue.cpp:14-35 | runs what was queued in order and subtracts it from the counter |
| `JobQueues.EveryJobIsSomewhereOnce` | CoreLib/JobQueue.cpp:4-35 | for any threads each inserted job is queued once, in one private batch, or executed exactly once |
| `JobQueues.InsertedIsHandedOver` | CoreLib/JobQueue.cpp:6-11 | the job at each place is the one the inserting thread counted last |
| `JobQueues.JobsAreConserved` | CoreLib/JobQueue.cpp:4-35 | the jobs queued, in private batches, executed, and counted but not inserted are together exactly the jobs pushed |
| `JobQueues.JobsRunAsHandedOver` | CoreLib/JobQueue.cpp:14-35 | while nobody overtakes, the jobs run are the first ones handed over, in that order |
| `JobQueues.OneExecutorRunsAsHandedOver` | CoreLib/JobQueue.cpp:14-35 | in particular with one executing thread, however many push |
| `JobQueues.ExecuteAlone` | CoreLib/JobQueue.cpp:14-35 | the steps of `Execute` without interruption are the method: all that was queued is run in order and subtracted, and the thread is out |
| `JobQueues.PushAlone` | CoreLib/JobQueue.cpp:4-12 | the steps of `Push` without interruption are the method |
| `JobQueues.BatchesKeepOrder` | CoreLib/JobQueue.cpp:18-27 | batches in taking order and the queue spell the insertion order; each thread works off its batch in order |
| `JobQueues.CounterIsExact` | CoreLib/JobQueue.cpp:6-34 | the counter is the queue plus counted pushes plus unfinished batches, never below the queue |
| `JobQueues.StepIsFifo` | CoreLib/JobQueue.cpp:29-33 | a step keeps execution in insertion order if and only if it does not run a job while another thread has jobs of an earlier batch |
| `JobQueues.FifoExactlyWhenNobodyOvertakes` | CoreLib/JobQueue.cpp:14-35 | the same over whole runs of any threads |
| `JobQueues.OneExecutorIsFifo` | CoreLib/JobQueue.cpp:14-35 | in particular jobs always run in insertion order with one executing thread, however many push |
| `JobQueues.TwoExecutorsCanReorder` | GameBS/main.cpp:18-32 | with two a later job can run first |
| `Guards.StepIsExclusive` | CoreLib/Service.cpp:90-114 | a step keeps the body exclusive if and only if it is not a compare-exchange that expects and finds true |
| `Guards.ExclusiveExactlyWhenNobodySlips` | CoreLib/Service.cpp:90-114 | the same over whole runs |
| `Guards.DispatchIsExclusiveWhenExpectingFalse` | CoreLib/Service.cpp:179-186 | `Dispatch` is exclusive over runs in which every snapshot compared with was false |
| `Guards.RoomTaskIsExclusive` | GameBS/BS_GameRoom.cpp:272-280 | at most one thread runs a round, in every interleaving |
| `Guards.FirstToExchangeEnters` | GameBS/BS_GameRoom.cpp:272-273 | a thread that finds no round going on and is the first to compare-exchange gets in |
| `Guards.BusyIsLeftAlone` | CoreLib/Service.cpp:94-95 | a thread that finds the flag set, in `RoomTask` or at the second test of `Dispatch`, goes away and changes nothing else |
| `Guards.AttemptEnds` | GameBS/BS_GameRoom.cpp:273-281 | after its compare-exchange a thread is in, if the flag was as expected, and out otherwise |
| `Guards.FreeRoomIsEntered` | GameBS/BS_GameRoom.cpp:272-280 | from every state `RoomTask` reaches with nobody inside, two steps of any idle thread put it inside |
| `Guards.DispatchCanAdmitTwo` | CoreLib/Service.cpp:94-95 | two threads can be inside `Dispatch` |

## Left out

- Sockets, epoll, accept, errno and fd lifetime: `recv` delivers some bytes that fit in the free space, `sendmsg` accepts some
  prefix of what it is offered; both amounts are parameters.
- The inside of the pthread lock: a write-guarded block is one atomic step, and nothing is claimed about read locks.
- Concurrent `Send`, `PushBuffer` or `Disconnect` on one session: one sender at a time per session, so the size taken outside
  the lock (CoreLib/Session.cpp:25) always matches the queue.
- Writing a payload after its buffer was queued: `Delivery` lets a payload be written only before the buffer enters a queue,
  which is what every caller does.
- Reference counting on the class `SendBufferManager`: the deleter and the references are part of the step system
  `SendBufferPool` only; the classes show the operations of one thread in place.
- What happens after an overrun, which the language does not define: `SendBufferPool` and `Delivery` take no further step.
- Relays.GameSession.HandlePacket: packets shorter than their own fields say are excluded, and the room always exists.
- GameRooms.Monster.ResetSpawn: does not set the yaw back to zero, because yaw is left out of the room.
- GameRooms.Monster.MoveTarget: does not turn the monster, because yaw is left out of the room.
- GameRooms.GameRoom.constructor: does not give the monsters types and names, which the rounds do not use.
- GameRooms.GameRoom.MoveMosters: returns the two lists; the packets made from them are `RoomPackets.RoundPackets`.
- Sessions.Session.ReciveMessage: excludes deliveries on which the loop of `OnRecv` does not end.
- Framing.OnRecv: excludes streams on which the loop does not end, as `LoopEndsExactlyWhenNotStalled` characterises.
- Sessions.RecvBuffer.Clean: `memcpy` is a forward byte copy; that its ranges are disjoint is proved for the intended threshold
  only (`CompactionAsIntended`).
- Floating point: cosine, sine and distance are exact reals given by their equations; yaw is carried in packets as 32 bits
  and otherwise left out, so the direction of wandering, the random generator and the parity `_tick` are an arbitrary direction.
- The 500 ms between rounds: the test at GameBS/BS_GameRoom.cpp:270 is outside the guard.
- Data races on player positions and monsters: one round and one `MonsterHit` are atomic.
- Overflow of hp and coordinates beyond 32 bits, and of the unbounded job counter.
- The packet of user data, which nothing sends; the one-field packet with id 6; room and thread managers, startup, logging.
