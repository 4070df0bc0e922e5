/** BufferWrite and the MakePacket overloads for lists and the load packet, writing into the pooled send buffers. */
module PacketWriters {
  import opened Bytes
  import opened Codec
  import opened Framing
  import opened Packets
  import opened SendBuffers

  class BufferWrite {
    const buffer: array<byte>
    const base: nat
    const size: nat
    var pos: nat
    /** The fields handed to Write so far, dropped ones included. */
    ghost var fields: seq<seq<byte>>

    ghost predicate Valid()
      reads this, buffer
    {
      base + size <= buffer.Length && pos <= size && buffer[base..base + pos] == EmitAll(size, [], fields)
    }

    /** The bytes before and behind the region this may write. */
    ghost function Outside(): (seq<byte>, seq<byte>)
      requires base + size <= buffer.Length
      reads buffer
    {
      (buffer[..base], buffer[base + size..])
    }

    constructor (buffer: array<byte>, base: nat, size: nat)
      requires base + size <= buffer.Length
      ensures Valid() && fields == []
      ensures this.buffer == buffer && this.base == base && this.size == size
    {
      this.buffer, this.base, this.size := buffer, base, size;
      pos, fields := 0, [];
    }

    function FreeSize(): (n: int)
      reads this
    {
      size - pos
    }

    method Write(src: seq<byte>) returns (ok: bool)
      requires Valid()
      modifies this, buffer
      ensures Valid() && fields == old(fields) + [src]
      ensures ok <==> |old(buffer[base..base + pos])| + |src| <= size
      ensures Outside() == old(Outside())
    {
      hide EmitAll;
      EmitOneMore(size, fields, src);
      fields := fields + [src];
      if FreeSize() < |src| {
        return false;
      }
      ghost var before := buffer[..];
      PutAt(buffer, base + pos, src);
      ghost var now := buffer[..];
      Placed(before, now, base, pos, src, size);
      assert buffer[base..base + (pos + |src|)] == now[base..base + (pos + |src|)];
      assert Outside() == (now[..base], now[base + size..]);
      assert old(Outside()) == (before[..base], before[base + size..]);
      pos := pos + |src|;
      return true;
    }
  }

  lemma EmitOneMore(size: nat, fields: seq<seq<byte>>, src: seq<byte>)
    ensures EmitAll(size, [], fields + [src]) == Emit(size, EmitAll(size, [], fields), src)
  {
    EmitAllConcat(size, [], fields, [src]);
  }

  /** What PutAt changes of the region base..base + size. */
  lemma Placed(before: seq<byte>, now: seq<byte>, base: nat, pos: nat, src: seq<byte>, size: nat)
    requires pos + |src| <= size && base + size <= |before| == |now|
    requires now[..base + pos] == before[..base + pos]
    requires now[base + pos..base + pos + |src|] == src
    requires now[base + pos + |src|..] == before[base + pos + |src|..]
    ensures now[base..base + (pos + |src|)] == before[base..base + pos] + src
    ensures now[..base] == before[..base] && now[base + size..] == before[base + size..]
  {
    assert now[base..base + pos] == now[..base + pos][base..] == before[base..base + pos];
    assert now[..base] == now[..base + pos][..base] && before[..base] == before[..base + pos][..base];
    var at, rest := base + pos + |src|, size - pos - |src|;
    assert now[base + size..] == now[at..][rest..] && before[base + size..] == before[at..][rest..];
  }

  // ----- sizes -----

  method MoveListSizeOf(moves: seq<MoveRec>) returns (size: nat)
    ensures size == MoveListSize(moves)
  {
    size := 0;
    for i := 0 to |moves|
      invariant size == 24 * i
    {
      size := size + 24;
    }
    size := size + 2;
  }

  method AttackListSizeOf(attacks: seq<AttackRec>) returns (size: nat)
    ensures size == AttackListSize(attacks)
  {
    size := 0;
    for i := 0 to |attacks|
      invariant size == 8 * i
    {
      size := size + 8;
    }
    size := size + 2;
  }

  method LoadSizeOf(players: seq<PlayerRec>, monsters: seq<MonsterRec>) returns (size: nat)
    ensures size == LoadSize(players, monsters)
  {
    size := 0;
    for i := 0 to |players|
      invariant size == 40 * i
    {
      size := size + 40;
    }
    var size2 := 0;
    for i := 0 to |monsters|
      invariant size2 == 48 * i
    {
      size2 := size2 + 48;
    }
    size := size + size2 + 4;
  }

  // ----- records -----

  method WriteVector(bw: BufferWrite, v: FVector)
    requires bw.Valid() && VectorOk(v)
    modifies bw, bw.buffer
    ensures bw.Valid() && bw.fields == old(bw.fields) + VectorFields(v)
    ensures bw.Outside() == old(bw.Outside())
  {
    hide EmitAll, I32, U32, BufferWrite.Outside;
    var _ := bw.Write(I32(v.x));
    var _ := bw.Write(I32(v.y));
    var _ := bw.Write(I32(v.z));
    var _ := bw.Write(U32(v.yaw));
  }

  method WriteMove(bw: BufferWrite, m: MoveRec)
    requires bw.Valid() && MoveOk(m)
    modifies bw, bw.buffer
    ensures bw.Valid() && bw.fields == old(bw.fields) + MoveFields(m)
    ensures bw.Outside() == old(bw.Outside())
  {
    hide EmitAll, I32, VectorFields, BufferWrite.Outside;
    var _ := bw.Write(I32(m.code));
    WriteVector(bw, m.pos);
    var _ := bw.Write(I32(m.target));
  }

  method WritePlace(bw: BufferWrite, pos: FVector, name: seq<byte>)
    requires bw.Valid() && VectorOk(pos) && |name| < U16_LIMIT
    modifies bw, bw.buffer
    ensures bw.Valid() && bw.fields == old(bw.fields) + (VectorFields(pos) + [U16(|name|), name])
    ensures bw.Outside() == old(bw.Outside())
  {
    hide EmitAll, U16, VectorFields, VectorOk, BufferWrite.Outside;
    WriteVector(bw, pos);
    var _ := bw.Write(U16(|name|));
    var _ := bw.Write(name);
  }

  method WritePlayer(bw: BufferWrite, p: PlayerRec)
    requires bw.Valid() && PlayerOk(p)
    modifies bw, bw.buffer
    ensures bw.Valid() && bw.fields == old(bw.fields) + PlayerFields(p)
    ensures bw.Outside() == old(bw.Outside())
  {
    hide EmitAll, I32, U16, VectorFields, BufferWrite.Outside;
    var _ := bw.Write(U16(p.kind));
    var _ := bw.Write([p.hp]);
    var _ := bw.Write(I32(p.code));
    WritePlace(bw, p.pos, p.name);
  }

  method WriteMonster(bw: BufferWrite, m: MonsterRec)
    requires bw.Valid() && MonsterOk(m)
    modifies bw, bw.buffer
    ensures bw.Valid() && bw.fields == old(bw.fields) + MonsterFields(m)
    ensures bw.Outside() == old(bw.Outside())
  {
    hide EmitAll, I32, U16, VectorFields, BufferWrite.Outside;
    var _ := bw.Write(U16(m.kind));
    var _ := bw.Write([m.hp]);
    var _ := bw.Write(I32(m.code));
    var _ := bw.Write(I32(m.target));
    WritePlace(bw, m.pos, m.name);
  }

  // ----- growing a list of fields by the next record -----

  lemma {:induction false} MovesGrow(moves: seq<MoveRec>, i: nat)
    requires i < |moves| && forall m :: m in moves ==> MoveOk(m)
    ensures MovesFields(moves[..i + 1]) == MovesFields(moves[..i]) + MoveFields(moves[i])
  {
    if i != 0 {
      MovesGrow(moves[1..], i - 1);
      assert moves[..i + 1][1..] == moves[1..][..i] && moves[..i][1..] == moves[1..][..i - 1];
    } else {
      assert moves[..1][1..] == [];
    }
  }

  lemma {:induction false} AttacksGrow(attacks: seq<AttackRec>, i: nat)
    requires i < |attacks| && forall a :: a in attacks ==> AttackOk(a)
    ensures AttacksFields(attacks[..i + 1]) == AttacksFields(attacks[..i]) + AttackFields(attacks[i])
  {
    if i != 0 {
      AttacksGrow(attacks[1..], i - 1);
      assert attacks[..i + 1][1..] == attacks[1..][..i] && attacks[..i][1..] == attacks[1..][..i - 1];
    } else {
      assert attacks[..1][1..] == [];
    }
  }

  lemma {:induction false} PlayersGrow(players: seq<PlayerRec>, i: nat)
    requires i < |players| && forall p :: p in players ==> PlayerOk(p)
    ensures PlayersFields(players[..i + 1]) == PlayersFields(players[..i]) + PlayerFields(players[i])
  {
    if i != 0 {
      PlayersGrow(players[1..], i - 1);
      assert players[..i + 1][1..] == players[1..][..i] && players[..i][1..] == players[1..][..i - 1];
    } else {
      assert players[..1][1..] == [];
    }
  }

  lemma {:induction false} MonstersGrow(monsters: seq<MonsterRec>, i: nat)
    requires i < |monsters| && forall m :: m in monsters ==> MonsterOk(m)
    ensures MonstersFields(monsters[..i + 1]) == MonstersFields(monsters[..i]) + MonsterFields(monsters[i])
  {
    if i != 0 {
      MonstersGrow(monsters[1..], i - 1);
      assert monsters[..i + 1][1..] == monsters[1..][..i] && monsters[..i][1..] == monsters[1..][..i - 1];
    } else {
      assert monsters[..1][1..] == [];
    }
  }

  // ----- payloads -----

  method WriteMoveList(bw: BufferWrite, moves: seq<MoveRec>)
    requires bw.Valid() && bw.fields == [] && forall m :: m in moves ==> MoveOk(m)
    modifies bw, bw.buffer
    ensures bw.Valid() && bw.fields == MoveListFields(moves)
    ensures bw.Outside() == old(bw.Outside())
  {
    hide EmitAll, U16, MoveFields, MoveOk, BufferWrite.Outside;
    var _ := bw.Write(U16(|moves| % U16_LIMIT));
    for i := 0 to |moves|
      invariant bw.Valid() && bw.fields == [U16(|moves| % U16_LIMIT)] + MovesFields(moves[..i])
      invariant bw.Outside() == old(bw.Outside())
    {
      MovesGrow(moves, i);
      WriteMove(bw, moves[i]);
    }
    assert moves[..|moves|] == moves;
  }

  method WriteAttackList(bw: BufferWrite, attacks: seq<AttackRec>)
    requires bw.Valid() && bw.fields == [] && forall a :: a in attacks ==> AttackOk(a)
    modifies bw, bw.buffer
    ensures bw.Valid() && bw.fields == AttackListFields(attacks)
    ensures bw.Outside() == old(bw.Outside())
  {
    hide EmitAll, U16, I32, BufferWrite.Outside;
    var _ := bw.Write(U16(|attacks| % U16_LIMIT));
    for i := 0 to |attacks|
      invariant bw.Valid() && bw.fields == [U16(|attacks| % U16_LIMIT)] + AttacksFields(attacks[..i])
      invariant bw.Outside() == old(bw.Outside())
    {
      AttacksGrow(attacks, i);
      assert AttackOk(attacks[i]);
      var _ := bw.Write(I32(attacks[i].code));
      var _ := bw.Write(I32(attacks[i].skill));
    }
    assert attacks[..|attacks|] == attacks;
  }

  method WriteLoad(bw: BufferWrite, players: seq<PlayerRec>, monsters: seq<MonsterRec>)
    requires bw.Valid() && bw.fields == []
    requires (forall p :: p in players ==> PlayerOk(p)) && (forall m :: m in monsters ==> MonsterOk(m))
    modifies bw, bw.buffer
    ensures bw.Valid() && bw.fields == LoadFields(players, monsters)
    ensures bw.Outside() == old(bw.Outside())
  {
    hide EmitAll, U16, PlayerFields, MonsterFields, PlayerOk, MonsterOk, BufferWrite.Outside;
    var _ := bw.Write(U16(|players| % U16_LIMIT));
    for i := 0 to |players|
      invariant bw.Valid() && bw.fields == [U16(|players| % U16_LIMIT)] + PlayersFields(players[..i])
      invariant bw.Outside() == old(bw.Outside())
    {
      PlayersGrow(players, i);
      WritePlayer(bw, players[i]);
    }
    assert players[..|players|] == players;
    ghost var front := bw.fields;
    var _ := bw.Write(U16(|monsters| % U16_LIMIT));
    for i := 0 to |monsters|
      invariant bw.Valid() && bw.fields == front + ([U16(|monsters| % U16_LIMIT)] + MonstersFields(monsters[..i]))
      invariant bw.Outside() == old(bw.Outside())
    {
      MonstersGrow(monsters, i);
      WriteMonster(bw, monsters[i]);
    }
    assert monsters[..|monsters|] == monsters;
  }

  // ----- packets -----

  /** The statements every MakePacket starts with: the size is cut to 16 bits, the buffer made, and a writer set behind
      its header. bw is null after an overrun. */
  method StartPacket(manager: SendBufferManager, slot: SendBufferChunk?, size: nat, id: nat)
    returns (next: SendBufferChunk, made: Made, bw: BufferWrite?)
    requires manager.Valid() && (slot != null ==> slot.Valid() && slot !in manager.free && !slot.open)
    requires id < U16_LIMIT
    modifies manager, slot, manager.free, if slot == null then {} else {slot.buffer},
             set c | c in manager.free :: c.buffer
    ensures manager.Valid() && next.Valid() && next !in manager.free
    ensures next == slot || next in old(manager.free) || fresh(next.buffer)
    ensures made.Overrun? <==> size % U16_LIMIT > 65531
    ensures made.Overrun? <==> bw == null
    ensures made.Ready? ==>
              var buffer, dataSize := made.buffer, size % U16_LIMIT;
              && !next.open && buffer.owner == next && buffer.writeSize == HEADER_SIZE + dataSize
              && buffer.offset + HEADER_SIZE + dataSize == next.usedSize
              && (next == slot ==> buffer.offset == old(slot.usedSize)
                                   && next.buffer[..buffer.offset] == old(slot.buffer[..slot.usedSize]))
              && fresh(bw) && bw.Valid() && bw.fields == []
              && bw.buffer == next.buffer && bw.base == buffer.offset + HEADER_SIZE && bw.size == dataSize
              && HasHeader(bw.buffer[..bw.base], buffer.offset, id, dataSize)
  {
    hide EmitAll, U16, IsPacket;
    next, made := MakeSendBuffer(manager, slot, size % U16_LIMIT, id);
    if made.Overrun? {
      return next, made, null;
    }
    var buffer := made.buffer;
    bw := new BufferWrite(next.buffer, buffer.offset + HEADER_SIZE, size % U16_LIMIT);
    assert next.buffer[..bw.base][buffer.offset..] == next.buffer[buffer.offset..bw.base];
  }

  predicate HasHeader(front: seq<byte>, at: nat, id: nat, size: nat)
    requires id < U16_LIMIT && size <= 65531
  {
    at <= |front| && front[at..] == U16(id) + U16(HEADER_SIZE + size)
  }

  lemma HeaderInFront(a: seq<byte>, at: nat, id: nat, size: nat)
    requires id < U16_LIMIT && size <= 65531 && at + HEADER_SIZE + size <= |a|
    requires HasHeader(a[..at + HEADER_SIZE], at, id, size)
    ensures var p := a[at..at + HEADER_SIZE + size]; IsPacket(p) && PacketId(p) == id
  {
    var p, front := a[at..at + HEADER_SIZE + size], a[..at + HEADER_SIZE];
    assert p[..HEADER_SIZE] == front[at..] == U16(id) + U16(HEADER_SIZE + size);
    assert p[0] == p[..HEADER_SIZE][0] && p[1] == p[..HEADER_SIZE][1];
    assert p[2] == p[..HEADER_SIZE][2] && p[3] == p[..HEADER_SIZE][3];
  }

  /** Header and fields in place make the packet, when the announced size is that of the fields. */
  lemma WholePayload(a: seq<byte>, at: nat, id: nat, fields: seq<seq<byte>>, pos: nat)
    requires id < U16_LIMIT && |Flatten(fields)| <= 65531 && at + HEADER_SIZE + |Flatten(fields)| <= |a|
    requires HasHeader(a[..at + HEADER_SIZE], at, id, |Flatten(fields)|)
    requires pos <= |Flatten(fields)|
    requires a[at + HEADER_SIZE..at + HEADER_SIZE + pos] == EmitAll(|Flatten(fields)|, [], fields)
    ensures a[at..at + HEADER_SIZE + |Flatten(fields)|] == MakePacket(id, Flatten(fields))
  {
    hide Flatten, EmitAll, U16;
    var n := |Flatten(fields)|;
    AllFitExactly(n, [], fields);
    assert [] + Flatten(fields) == Flatten(fields);
    assert pos == n;
    assert a[at..at + HEADER_SIZE + n] == a[..at + HEADER_SIZE][at..] + a[at + HEADER_SIZE..at + HEADER_SIZE + n];
  }

  lemma SameFront(a: seq<byte>, b: seq<byte>, n: nat, m: nat)
    requires m <= n <= |a| && n <= |b| && a[..n] == b[..n]
    ensures a[..m] == b[..m]
  {
    assert a[..m] == a[..n][..m] == b[..n][..m] == b[..m];
  }

  /** p is what MakePacket sends for the list. */
  ghost predicate IsMovePacket(p: seq<byte>, moves: seq<MoveRec>)
    requires forall m :: m in moves ==> MoveOk(m)
  {
    && IsPacket(p) && PacketId(p) == 3
    && (GivesMoves(p, moves) <==> |moves| <= 2730)
    && (|moves| <= 2730 ==>
          |Flatten(MoveListFields(moves))| <= 65531 && p == MakePacket(3, Flatten(MoveListFields(moves))))
  }

  lemma WrittenMoves(a: seq<byte>, at: nat, moves: seq<MoveRec>, pos: nat)
    requires forall m :: m in moves ==> MoveOk(m)
    requires MoveListSize(moves) % U16_LIMIT <= 65531
    requires at + HEADER_SIZE + MoveListSize(moves) % U16_LIMIT <= |a|
    requires HasHeader(a[..at + HEADER_SIZE], at, 3, MoveListSize(moves) % U16_LIMIT)
    requires pos <= MoveListSize(moves) % U16_LIMIT
    requires a[at + HEADER_SIZE..at + HEADER_SIZE + pos] ==
             EmitAll(MoveListSize(moves) % U16_LIMIT, [], MoveListFields(moves))
    ensures IsMovePacket(a[at..at + HEADER_SIZE + MoveListSize(moves) % U16_LIMIT], moves)
  {
    hide EmitAll, Flatten, GivesMoves, MoveListFields, MoveOk, HasHeader, IsPacket, PacketId, MakePacket, TakeList;
    var fields, dataSize := MoveListFields(moves), MoveListSize(moves) % U16_LIMIT;
    var p := a[at..at + HEADER_SIZE + dataSize];
    HeaderInFront(a, at, 3, dataSize);
    MoveListBytes(moves);
    if |moves| <= 2730 {
      WholePayload(a, at, 3, fields, pos);
      MadePacketReadsBack(3, Flatten(fields));
      MoveListReadsBack(moves, []);
      assert Flatten(fields) + [] == Flatten(fields);
      GivesMovesIntro(p, moves);
    } else if GivesMoves(p, moves) {
      GivenMovesFit(p, moves);
      assert false;
    }
  }

  /** Never overruns, for a list of any length. */
  method MakeMoveList(manager: SendBufferManager, slot: SendBufferChunk?, moves: seq<MoveRec>)
    returns (next: SendBufferChunk, made: Made)
    requires manager.Valid() && (slot != null ==> slot.Valid() && slot !in manager.free && !slot.open)
    requires forall m :: m in moves ==> MoveOk(m)
    modifies manager, slot, manager.free, if slot == null then {} else {slot.buffer},
             set c | c in manager.free :: c.buffer
    ensures manager.Valid() && next.Valid() && next !in manager.free && made.Ready? && !next.open
    ensures made.buffer.owner == next && made.buffer.offset + made.buffer.writeSize == next.usedSize
    ensures IsMovePacket(next.buffer[made.buffer.offset..next.usedSize], moves)
    ensures next == slot ==> made.buffer.offset == old(slot.usedSize)
                             && next.buffer[..made.buffer.offset] == old(slot.buffer[..slot.usedSize])
  {
    hide EmitAll, U16, MoveListFields, HasHeader, MoveOk, IsMovePacket, SendBufferManager.Valid;
    var size := MoveListSizeOf(moves);
    NeverOverruns(|moves|);
    var bw;
    next, made, bw := StartPacket(manager, slot, size, 3);
    ghost var before := bw.buffer[..];
    WriteMoveList(bw, moves);
    SameFront(bw.buffer[..], before, bw.base, made.buffer.offset);
    WrittenMoves(bw.buffer[..], made.buffer.offset, moves, bw.pos);
  }

  ghost predicate IsAttackPacket(p: seq<byte>, attacks: seq<AttackRec>)
    requires forall a :: a in attacks ==> AttackOk(a)
  {
    && IsPacket(p) && PacketId(p) == 9
    && (GivesAttacks(p, attacks) <==> |attacks| <= 8191)
    && (|attacks| <= 8191 ==>
          |Flatten(AttackListFields(attacks))| <= 65531 && p == MakePacket(9, Flatten(AttackListFields(attacks))))
  }

  lemma WrittenAttacks(a: seq<byte>, at: nat, attacks: seq<AttackRec>, pos: nat)
    requires forall x :: x in attacks ==> AttackOk(x)
    requires AttackListSize(attacks) % U16_LIMIT <= 65531
    requires at + HEADER_SIZE + AttackListSize(attacks) % U16_LIMIT <= |a|
    requires HasHeader(a[..at + HEADER_SIZE], at, 9, AttackListSize(attacks) % U16_LIMIT)
    requires pos <= AttackListSize(attacks) % U16_LIMIT
    requires a[at + HEADER_SIZE..at + HEADER_SIZE + pos] ==
             EmitAll(AttackListSize(attacks) % U16_LIMIT, [], AttackListFields(attacks))
    ensures IsAttackPacket(a[at..at + HEADER_SIZE + AttackListSize(attacks) % U16_LIMIT], attacks)
  {
    hide EmitAll, Flatten, GivesAttacks, AttackListFields, AttackOk, HasHeader, IsPacket, PacketId, MakePacket,
      TakeList;
    var fields, dataSize := AttackListFields(attacks), AttackListSize(attacks) % U16_LIMIT;
    var p := a[at..at + HEADER_SIZE + dataSize];
    HeaderInFront(a, at, 9, dataSize);
    AttackListBytes(attacks);
    if |attacks| <= 8191 {
      WholePayload(a, at, 9, fields, pos);
      MadePacketReadsBack(9, Flatten(fields));
      AttackListReadsBack(attacks, []);
      assert Flatten(fields) + [] == Flatten(fields);
      GivesAttacksIntro(p, attacks);
    } else if GivesAttacks(p, attacks) {
      GivenAttacksFit(p, attacks);
      assert false;
    }
  }

  /** Never overruns, for a list of any length. */
  method MakeAttackList(manager: SendBufferManager, slot: SendBufferChunk?, attacks: seq<AttackRec>)
    returns (next: SendBufferChunk, made: Made)
    requires manager.Valid() && (slot != null ==> slot.Valid() && slot !in manager.free && !slot.open)
    requires forall a :: a in attacks ==> AttackOk(a)
    modifies manager, slot, manager.free, if slot == null then {} else {slot.buffer},
             set c | c in manager.free :: c.buffer
    ensures manager.Valid() && next.Valid() && next !in manager.free && made.Ready? && !next.open
    ensures made.buffer.owner == next && made.buffer.offset + made.buffer.writeSize == next.usedSize
    ensures IsAttackPacket(next.buffer[made.buffer.offset..next.usedSize], attacks)
    ensures next == slot ==> made.buffer.offset == old(slot.usedSize)
                             && next.buffer[..made.buffer.offset] == old(slot.buffer[..slot.usedSize])
  {
    hide EmitAll, U16, AttackListFields, HasHeader, AttackOk, IsAttackPacket, SendBufferManager.Valid;
    var size := AttackListSizeOf(attacks);
    NeverOverruns(|attacks|);
    var bw;
    next, made, bw := StartPacket(manager, slot, size, 9);
    ghost var before := bw.buffer[..];
    WriteAttackList(bw, attacks);
    SameFront(bw.buffer[..], before, bw.base, made.buffer.offset);
    WrittenAttacks(bw.buffer[..], made.buffer.offset, attacks, bw.pos);
  }

  /** A whole packet from which both lists are read back exactly when the size did not overflow and the names fit. */
  ghost predicate IsLoadPacket(p: seq<byte>, players: seq<PlayerRec>, monsters: seq<MonsterRec>)
  {
    && IsPacket(p) && PacketId(p) == 1
    && (GivesLoad(p, players, monsters) <==>
          && LoadSize(players, monsters) <= 65531
          && PlayerNames(players) + MonsterNames(monsters) <= 15 * |players| + 19 * |monsters|)
  }

  /** What Write let through of the fields of a load packet whose size did not overflow. */
  lemma FittingPayload(p: seq<byte>, players: seq<PlayerRec>, monsters: seq<MonsterRec>, pos: nat)
    requires (forall p :: p in players ==> PlayerOk(p)) && (forall m :: m in monsters ==> MonsterOk(m))
    requires pos <= LoadSize(players, monsters) <= 65531
    requires PlayerNames(players) + MonsterNames(monsters) <= 15 * |players| + 19 * |monsters|
    requires IsPacket(p) && PacketId(p) == 1 && |p| == HEADER_SIZE + LoadSize(players, monsters)
    requires p[HEADER_SIZE..][..pos] == EmitAll(LoadSize(players, monsters), [], LoadFields(players, monsters))
    ensures GivesLoad(p, players, monsters)
  {
    hide EmitAll, AllFit, Flatten, GivesLoad, LoadFields, PlayerOk, MonsterOk, LoadSize, LoadLength, PlayerNames,
      MonsterNames, IsPacket, PacketId;
    var size, fields := LoadSize(players, monsters), LoadFields(players, monsters);
    LoadBytes(players, monsters);
    LoadSizes(players, monsters);
    AllFitExactly(size, [], fields);
    assert [] + Flatten(fields) == Flatten(fields);
    CarriedLoadIsGiven(p, players, monsters);
  }

  lemma GivenPayloadFits(p: seq<byte>, players: seq<PlayerRec>, monsters: seq<MonsterRec>)
    requires GivesLoad(p, players, monsters)
    requires |p| == HEADER_SIZE + LoadSize(players, monsters) % U16_LIMIT
    requires LoadSize(players, monsters) % U16_LIMIT <= 65531
    ensures LoadSize(players, monsters) <= 65531
    ensures PlayerNames(players) + MonsterNames(monsters) <= 15 * |players| + 19 * |monsters|
  {
    hide GivesLoad, PlayerNames, MonsterNames, IsPacket;
    GivenLoadFits(p, players, monsters);
    FittingLoadDoesNotOverflow(|players|, |monsters|, PlayerNames(players) + MonsterNames(monsters));
  }

  lemma LoadPayload(p: seq<byte>, players: seq<PlayerRec>, monsters: seq<MonsterRec>, pos: nat)
    requires (forall p :: p in players ==> PlayerOk(p)) && (forall m :: m in monsters ==> MonsterOk(m))
    requires IsPacket(p) && PacketId(p) == 1 && |p| == HEADER_SIZE + LoadSize(players, monsters) % U16_LIMIT
    requires LoadSize(players, monsters) % U16_LIMIT <= 65531 && pos <= LoadSize(players, monsters) % U16_LIMIT
    requires p[HEADER_SIZE..][..pos] ==
             EmitAll(LoadSize(players, monsters) % U16_LIMIT, [], LoadFields(players, monsters))
    ensures IsLoadPacket(p, players, monsters)
  {
    hide EmitAll, GivesLoad, LoadFields, PlayerOk, MonsterOk, LoadSize, PlayerNames, MonsterNames, IsPacket, PacketId;
    if GivesLoad(p, players, monsters) {
      GivenPayloadFits(p, players, monsters);
    }
    if LoadSize(players, monsters) <= 65531 &&
       PlayerNames(players) + MonsterNames(monsters) <= 15 * |players| + 19 * |monsters| {
      assert LoadSize(players, monsters) % U16_LIMIT == LoadSize(players, monsters);
      FittingPayload(p, players, monsters, pos);
    }
  }

  lemma WrittenLoad(a: seq<byte>, at: nat, players: seq<PlayerRec>, monsters: seq<MonsterRec>, pos: nat)
    requires (forall p :: p in players ==> PlayerOk(p)) && (forall m :: m in monsters ==> MonsterOk(m))
    requires pos <= LoadSize(players, monsters) % U16_LIMIT <= 65531
    requires at + HEADER_SIZE + LoadSize(players, monsters) % U16_LIMIT <= |a|
    requires HasHeader(a[..at + HEADER_SIZE], at, 1, LoadSize(players, monsters) % U16_LIMIT)
    requires a[at + HEADER_SIZE..at + HEADER_SIZE + pos] ==
             EmitAll(LoadSize(players, monsters) % U16_LIMIT, [], LoadFields(players, monsters))
    ensures IsLoadPacket(a[at..at + HEADER_SIZE + LoadSize(players, monsters) % U16_LIMIT], players, monsters)
  {
    hide EmitAll, LoadFields, PlayerOk, MonsterOk, LoadSize, IsLoadPacket, HasHeader, IsPacket, PacketId;
    var dataSize := LoadSize(players, monsters) % U16_LIMIT;
    HeaderInFront(a, at, 1, dataSize);
    var p := a[at..at + HEADER_SIZE + dataSize];
    assert p[HEADER_SIZE..][..pos] == a[at + HEADER_SIZE..at + HEADER_SIZE + pos];
    LoadPayload(p, players, monsters, pos);
  }

  /** Overruns exactly when the size, cut to 16 bits, is above 65531. */
  method MakeLoad(manager: SendBufferManager, slot: SendBufferChunk?, players: seq<PlayerRec>,
                  monsters: seq<MonsterRec>)
    returns (next: SendBufferChunk, made: Made)
    requires manager.Valid() && (slot != null ==> slot.Valid() && slot !in manager.free && !slot.open)
    requires (forall p :: p in players ==> PlayerOk(p)) && (forall m :: m in monsters ==> MonsterOk(m))
    modifies manager, slot, manager.free, if slot == null then {} else {slot.buffer},
             set c | c in manager.free :: c.buffer
    ensures manager.Valid() && next.Valid() && next !in manager.free
    ensures made.Overrun? <==> LoadSize(players, monsters) % U16_LIMIT > 65531
    ensures made.Ready? ==>
              && !next.open && made.buffer.owner == next && made.buffer.offset + made.buffer.writeSize == next.usedSize
              && IsLoadPacket(next.buffer[made.buffer.offset..next.usedSize], players, monsters)
              && (next == slot ==> made.buffer.offset == old(slot.usedSize)
                                   && next.buffer[..made.buffer.offset] == old(slot.buffer[..slot.usedSize]))
  {
    hide EmitAll, U16, LoadFields, HasHeader, IsLoadPacket, PlayerOk, MonsterOk, SendBufferManager.Valid, LoadSize;
    var size := LoadSizeOf(players, monsters);
    var bw;
    next, made, bw := StartPacket(manager, slot, size, 1);
    if made.Ready? {
      ghost var before := bw.buffer[..];
      WriteLoad(bw, players, monsters);
      SameFront(bw.buffer[..], before, bw.base, made.buffer.offset);
      WrittenLoad(bw.buffer[..], made.buffer.offset, players, monsters, bw.pos);
    }
  }
}
