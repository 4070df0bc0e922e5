/** What the MakePacket overloads send, with the 16-bit sizes of the code, and exactly when a receiver gets back what
    was written. `after` stands for the memory behind the written payload: a buffer is reused, so it holds anything. */
module Packets {
  import opened Bytes
  import opened Codec
  import opened Framing
  import opened Wrappers

  /** The bytes of the buffer MakePacket returns. size is the payload size the packet type reports, cut to 16 bits
      twice: as dataSize, and again when the header is added. None: that sum overflows, the buffer is too short for its
      header, and header and payload are written past its end. */
  function Sent(id: nat, size: nat, fields: seq<seq<byte>>, after: seq<byte>): (p: Option<seq<byte>>)
    requires id < U16_LIMIT && U16_LIMIT <= |after|
  {
    var dataSize := size % U16_LIMIT;
    if PacketSize(dataSize) < HEADER_SIZE + dataSize then None
    else Some((U16(id) + U16(PacketSize(dataSize)) + EmitAll(dataSize, [], fields) + after)[..PacketSize(dataSize)])
  }

  /** A whole packet whose payload starts with the given bytes. */
  predicate Carries(p: seq<byte>, id: nat, bytes: seq<byte>)
  {
    IsPacket(p) && PacketId(p) == id && bytes <= p[HEADER_SIZE..]
  }

  /** The header is added without overflow exactly up to 65531 bytes, and then makes a whole packet. */
  lemma SentIsPacket(id: nat, size: nat, fields: seq<seq<byte>>, after: seq<byte>)
    requires id < U16_LIMIT && U16_LIMIT <= |after|
    ensures var p := Sent(id, size, fields, after);
            && (p.Some? <==> size % U16_LIMIT <= 65531)
            && (p.Some? ==> IsPacket(p.value) && PacketId(p.value) == id && |p.value| == HEADER_SIZE + size % U16_LIMIT)
  {
    hide EmitAll;
    var dataSize := size % U16_LIMIT;
    var packetSize := PacketSize(dataSize);
    var all := U16(id) + U16(packetSize) + EmitAll(dataSize, [], fields) + after;
    if dataSize <= 65531 {
      assert ReadU16(all[..packetSize], 2) == packetSize && ReadU16(all[..packetSize], 0) == id;
    }
  }

  /** A packet carries all its fields exactly when they fit in the size that was announced for them. */
  lemma CarriesExactlyWhatFits(id: nat, size: nat, fields: seq<seq<byte>>, after: seq<byte>)
    requires id < U16_LIMIT && U16_LIMIT <= |after|
    ensures var p := Sent(id, size, fields, after);
            && (p.Some? && Carries(p.value, id, Flatten(fields)) <==> |Flatten(fields)| <= size % U16_LIMIT <= 65531)
            && (|Flatten(fields)| == size <= 65531 ==> p == Some(MakePacket(id, Flatten(fields))))
  {
    hide EmitAll, Flatten, IsPacket, PacketId, U16;
    SentIsPacket(id, size, fields, after);
    var dataSize := size % U16_LIMIT;
    var packetSize := PacketSize(dataSize);
    AllFitExactly(dataSize, [], fields);
    var head, written := U16(id) + U16(packetSize), EmitAll(dataSize, [], fields);
    var all := head + written + after;
    if dataSize <= 65531 && |Flatten(fields)| <= dataSize {
      assert written == Flatten(fields);
      assert all[..packetSize][HEADER_SIZE..] == (written + after)[..dataSize];
      assert size == |written| ==> all[..packetSize] == head + written;
    }
  }

  // ----- lists -----

  function MoveListFields(moves: seq<MoveRec>): seq<seq<byte>>
    requires forall m :: m in moves ==> MoveOk(m)
  {
    [U16(|moves| % U16_LIMIT)] + MovesFields(moves)
  }

  function AttackListFields(attacks: seq<AttackRec>): seq<seq<byte>>
    requires forall a :: a in attacks ==> AttackOk(a)
  {
    [U16(|attacks| % U16_LIMIT)] + AttacksFields(attacks)
  }

  function MoveListSize(moves: seq<MoveRec>): nat { 24 * |moves| + 2 }
  function AttackListSize(attacks: seq<AttackRec>): nat { 8 * |attacks| + 2 }

  lemma MoveListBytes(moves: seq<MoveRec>)
    requires forall m :: m in moves ==> MoveOk(m)
    ensures |Flatten(MoveListFields(moves))| == MoveListSize(moves)
    ensures Flatten(MoveListFields(moves)) == U16(|moves| % U16_LIMIT) + Flatten(MovesFields(moves))
  {
    hide Flatten;
    FlattenCons(U16(|moves| % U16_LIMIT), MovesFields(moves));
    TakesMoves(moves, []);
  }

  lemma AttackListBytes(attacks: seq<AttackRec>)
    requires forall a :: a in attacks ==> AttackOk(a)
    ensures |Flatten(AttackListFields(attacks))| == AttackListSize(attacks)
    ensures Flatten(AttackListFields(attacks)) == U16(|attacks| % U16_LIMIT) + Flatten(AttacksFields(attacks))
  {
    hide Flatten;
    FlattenCons(U16(|attacks| % U16_LIMIT), AttacksFields(attacks));
    TakesAttacks(attacks, []);
  }

  lemma MoveListReadsBack(moves: seq<MoveRec>, rest: seq<byte>)
    requires (forall m :: m in moves ==> MoveOk(m)) && |moves| < U16_LIMIT
    ensures TakeList(TakeMove, Flatten(MoveListFields(moves)) + rest) == Some((moves, rest))
  {
    hide Flatten, MovesFields, TakeMany, TakeList, TakeMove, MoveListFields, U16, MoveOk;
    MoveListBytes(moves);
    TakesMoves(moves, rest);
    TakesList(TakeMove, moves, Flatten(MovesFields(moves)), rest);
  }

  lemma AttackListReadsBack(attacks: seq<AttackRec>, rest: seq<byte>)
    requires (forall a :: a in attacks ==> AttackOk(a)) && |attacks| < U16_LIMIT
    ensures TakeList(TakeAttack, Flatten(AttackListFields(attacks)) + rest) == Some((attacks, rest))
  {
    hide Flatten, AttacksFields, TakeMany, TakeList, TakeAttack, AttackListFields, U16, AttackOk;
    AttackListBytes(attacks);
    TakesAttacks(attacks, rest);
    TakesList(TakeAttack, attacks, Flatten(AttacksFields(attacks)), rest);
  }

  /** p is a whole packet from which a reader gets the list back, whatever follows it. */
  predicate GivesMoves(p: seq<byte>, moves: seq<MoveRec>)
  {
    IsPacket(p) && PacketId(p) == 3 &&
    var r := TakeList(TakeMove, p[HEADER_SIZE..]);
    r.Some? && r.value.0 == moves
  }

  predicate GivesAttacks(p: seq<byte>, attacks: seq<AttackRec>)
  {
    IsPacket(p) && PacketId(p) == 9 &&
    var r := TakeList(TakeAttack, p[HEADER_SIZE..]);
    r.Some? && r.value.0 == attacks
  }

  /** The announced size is the number of bytes of the fields for every list; no write fails and the receiver gets the
      list back exactly up to 2730 moves. */
  lemma MoveListsAreExact(moves: seq<MoveRec>, after: seq<byte>)
    requires (forall m :: m in moves ==> MoveOk(m)) && U16_LIMIT <= |after|
    ensures |Flatten(MoveListFields(moves))| == MoveListSize(moves)
    ensures var p := Sent(3, MoveListSize(moves), MoveListFields(moves), after);
            && p.Some? && (GivesMoves(p.value, moves) <==> |moves| <= 2730)
            && (|moves| <= 2730 ==>
                  && AllFit(MoveListSize(moves), [], MoveListFields(moves))
                  && p == Some(MakePacket(3, Flatten(MoveListFields(moves)))))
  {
    hide Sent, MoveListFields, Flatten, AllFit, GivesMoves, MakePacket, TakeList, IsPacket, PacketId, EmitAll;
    var fields, size := MoveListFields(moves), MoveListSize(moves);
    MoveListBytes(moves);
    SentIsPacket(3, size, fields, after);
    NeverOverruns(|moves|);
    if |moves| <= 2730 {
      CarriesExactlyWhatFits(3, size, fields, after);
      AllFitExactly(size, [], fields);
      MadePacketReadsBack(3, Flatten(fields));
      MoveListReadsBack(moves, []);
      assert Flatten(fields) + [] == Flatten(fields);
      GivesMovesIntro(MakePacket(3, Flatten(fields)), moves);
    } else if GivesMoves(Sent(3, size, fields, after).value, moves) {
      GivenMovesFit(Sent(3, size, fields, after).value, moves);
      assert false;
    }
  }

  /** List sizes are two above a multiple of eight, so cutting them to 16 bits never leaves one of the last four
      sizes. */
  lemma TwoAboveEights(k: nat)
    ensures (8 * k + 2) % U16_LIMIT <= 65531
  {
    var q, r := (8 * k + 2) / U16_LIMIT, (8 * k + 2) % U16_LIMIT;
    assert r == 8 * (k - 8192 * q) + 2;
  }

  lemma NeverOverruns(n: nat)
    ensures (24 * n + 2) % U16_LIMIT <= 65531 && (8 * n + 2) % U16_LIMIT <= 65531
  {
    TwoAboveEights(n);
    TwoAboveEights(3 * n);
    assert 24 * n + 2 == 8 * (3 * n) + 2;
  }

  lemma GivesMovesIntro(p: seq<byte>, moves: seq<MoveRec>)
    requires IsPacket(p) && PacketId(p) == 3 && TakeList(TakeMove, p[HEADER_SIZE..]) == Some((moves, []))
    ensures GivesMoves(p, moves)
  {
  }

  lemma GivenMovesFit(p: seq<byte>, moves: seq<MoveRec>)
    requires GivesMoves(p, moves)
    ensures |moves| <= 2730
  {
    hide PacketId, TakeMove, TakeMany;
    var (n, s1) := TakeU16(p[HEADER_SIZE..]);
    MovesLength(n, s1);
    assert |p| == ReadU16(p, 2) < U16_LIMIT;
  }

  /** Likewise up to 8191 attacks. */
  lemma AttackListsAreExact(attacks: seq<AttackRec>, after: seq<byte>)
    requires (forall a :: a in attacks ==> AttackOk(a)) && U16_LIMIT <= |after|
    ensures |Flatten(AttackListFields(attacks))| == AttackListSize(attacks)
    ensures var p := Sent(9, AttackListSize(attacks), AttackListFields(attacks), after);
            && p.Some? && (GivesAttacks(p.value, attacks) <==> |attacks| <= 8191)
            && (|attacks| <= 8191 ==>
                  && AllFit(AttackListSize(attacks), [], AttackListFields(attacks))
                  && p == Some(MakePacket(9, Flatten(AttackListFields(attacks)))))
  {
    hide Sent, AttackListFields, Flatten, AllFit, GivesAttacks, MakePacket, TakeList, IsPacket, PacketId, EmitAll;
    var fields, size := AttackListFields(attacks), AttackListSize(attacks);
    AttackListBytes(attacks);
    SentIsPacket(9, size, fields, after);
    NeverOverruns(|attacks|);
    if |attacks| <= 8191 {
      CarriesExactlyWhatFits(9, size, fields, after);
      AllFitExactly(size, [], fields);
      MadePacketReadsBack(9, Flatten(fields));
      AttackListReadsBack(attacks, []);
      assert Flatten(fields) + [] == Flatten(fields);
      GivesAttacksIntro(MakePacket(9, Flatten(fields)), attacks);
    } else if GivesAttacks(Sent(9, size, fields, after).value, attacks) {
      GivenAttacksFit(Sent(9, size, fields, after).value, attacks);
      assert false;
    }
  }

  lemma GivesAttacksIntro(p: seq<byte>, attacks: seq<AttackRec>)
    requires IsPacket(p) && PacketId(p) == 9 && TakeList(TakeAttack, p[HEADER_SIZE..]) == Some((attacks, []))
    ensures GivesAttacks(p, attacks)
  {
  }

  lemma GivenAttacksFit(p: seq<byte>, attacks: seq<AttackRec>)
    requires GivesAttacks(p, attacks)
    ensures |attacks| <= 8191
  {
    hide PacketId, TakeAttack, TakeMany;
    var (n, s1) := TakeU16(p[HEADER_SIZE..]);
    AttacksLength(n, s1);
    assert |p| == ReadU16(p, 2) < U16_LIMIT;
  }

  // ----- the load packet -----

  function LoadFields(players: seq<PlayerRec>, monsters: seq<MonsterRec>): seq<seq<byte>>
    requires (forall p :: p in players ==> PlayerOk(p)) && (forall m :: m in monsters ==> MonsterOk(m))
  {
    [U16(|players| % U16_LIMIT)] + PlayersFields(players) + ([U16(|monsters| % U16_LIMIT)] + MonstersFields(monsters))
  }

  /** sizeof(Player) and sizeof(Monster) on a 64-bit ABI. */
  function LoadSize(players: seq<PlayerRec>, monsters: seq<MonsterRec>): nat
  {
    40 * |players| + 48 * |monsters| + 4
  }

  /** The bytes the fields of a load packet take. */
  function LoadLength(players: seq<PlayerRec>, monsters: seq<MonsterRec>): nat
  {
    25 * |players| + PlayerNames(players) + 29 * |monsters| + MonsterNames(monsters) + 4
  }

  lemma LoadBytes(players: seq<PlayerRec>, monsters: seq<MonsterRec>)
    requires (forall p :: p in players ==> PlayerOk(p)) && (forall m :: m in monsters ==> MonsterOk(m))
    ensures |Flatten(LoadFields(players, monsters))| == LoadLength(players, monsters)
    ensures Flatten(LoadFields(players, monsters)) ==
            U16(|players| % U16_LIMIT) + Flatten(PlayersFields(players)) +
            (U16(|monsters| % U16_LIMIT) + Flatten(MonstersFields(monsters)))
  {
    hide Flatten, PlayersFields, MonstersFields;
    var p, m := PlayersFields(players), MonstersFields(monsters);
    FlattenConcat([U16(|players| % U16_LIMIT)] + p, [U16(|monsters| % U16_LIMIT)] + m);
    FlattenCons(U16(|players| % U16_LIMIT), p);
    FlattenCons(U16(|monsters| % U16_LIMIT), m);
    TakesPlayers(players, []);
    TakesMonsters(monsters, []);
  }

  lemma LoadReadsBack(players: seq<PlayerRec>, monsters: seq<MonsterRec>, rest: seq<byte>)
    requires (forall p :: p in players ==> PlayerOk(p)) && (forall m :: m in monsters ==> MonsterOk(m))
    requires |players| < U16_LIMIT && |monsters| < U16_LIMIT
    ensures TakeLoad(Flatten(LoadFields(players, monsters)) + rest) == Some((players, monsters))
  {
    hide Flatten, PlayersFields, MonstersFields, TakeMany, TakeList, TakePlayer, TakeMonster, LoadFields, U16,
      PlayerOk, MonsterOk;
    LoadBytes(players, monsters);
    var m := U16(|monsters|) + Flatten(MonstersFields(monsters)) + rest;
    var p := Flatten(PlayersFields(players));
    assert Flatten(LoadFields(players, monsters)) + rest == U16(|players|) + p + m;
    TakesPlayers(players, m);
    TakesList(TakePlayer, players, p, m);
    TakesMonsters(monsters, rest);
    TakesList(TakeMonster, monsters, Flatten(MonstersFields(monsters)), rest);
  }

  predicate GivesLoad(p: seq<byte>, players: seq<PlayerRec>, monsters: seq<MonsterRec>)
  {
    IsPacket(p) && PacketId(p) == 1 && TakeLoad(p[HEADER_SIZE..]) == Some((players, monsters))
  }

  /** Every write succeeds exactly when the names take no more than the unused bytes of the records. */
  lemma LoadWritesSucceedExactly(players: seq<PlayerRec>, monsters: seq<MonsterRec>)
    requires (forall p :: p in players ==> PlayerOk(p)) && (forall m :: m in monsters ==> MonsterOk(m))
    requires LoadSize(players, monsters) < U16_LIMIT
    ensures AllFit(LoadSize(players, monsters), [], LoadFields(players, monsters)) <==>
            PlayerNames(players) + MonsterNames(monsters) <= 15 * |players| + 19 * |monsters|
  {
    hide Flatten, LoadFields, AllFit, EmitAll;
    AllFitExactly(LoadSize(players, monsters), [], LoadFields(players, monsters));
    LoadBytes(players, monsters);
  }

  /** A receiver gets both lists back exactly when the size does not overflow and the names fit. */
  lemma LoadsAreExact(players: seq<PlayerRec>, monsters: seq<MonsterRec>, after: seq<byte>)
    requires (forall p :: p in players ==> PlayerOk(p)) && (forall m :: m in monsters ==> MonsterOk(m))
    requires U16_LIMIT <= |after|
    ensures var p := Sent(1, LoadSize(players, monsters), LoadFields(players, monsters), after);
            p.Some? && GivesLoad(p.value, players, monsters) <==>
            LoadSize(players, monsters) <= 65531 &&
            PlayerNames(players) + MonsterNames(monsters) <= 15 * |players| + 19 * |monsters|
  {
    hide Sent, LoadFields, GivesLoad, PlayerNames, MonsterNames, PlayerOk, MonsterOk;
    var p := Sent(1, LoadSize(players, monsters), LoadFields(players, monsters), after);
    if LoadSize(players, monsters) <= 65531 &&
       PlayerNames(players) + MonsterNames(monsters) <= 15 * |players| + 19 * |monsters| {
      FittingLoadIsGiven(players, monsters, after);
    } else if p.Some? && GivesLoad(p.value, players, monsters) {
      GivenLoadIsFitting(players, monsters, after);
      assert false;
    }
  }

  lemma FittingLoadIsGiven(players: seq<PlayerRec>, monsters: seq<MonsterRec>, after: seq<byte>)
    requires (forall p :: p in players ==> PlayerOk(p)) && (forall m :: m in monsters ==> MonsterOk(m))
    requires U16_LIMIT <= |after| && LoadSize(players, monsters) <= 65531
    requires PlayerNames(players) + MonsterNames(monsters) <= 15 * |players| + 19 * |monsters|
    ensures var p := Sent(1, LoadSize(players, monsters), LoadFields(players, monsters), after);
            p.Some? && GivesLoad(p.value, players, monsters)
  {
    hide Sent, LoadFields, Flatten, GivesLoad, Carries, PlayerNames, MonsterNames, PlayerOk, MonsterOk, LoadSize,
      MakePacket;
    var size := LoadSize(players, monsters);
    LoadBytes(players, monsters);
    LoadSizes(players, monsters);
    CarriesExactlyWhatFits(1, size, LoadFields(players, monsters), after);
    CarriedLoadIsGiven(Sent(1, size, LoadFields(players, monsters), after).value, players, monsters);
  }

  lemma LoadSizes(players: seq<PlayerRec>, monsters: seq<MonsterRec>)
    requires LoadSize(players, monsters) <= 65531
    ensures LoadSize(players, monsters) % U16_LIMIT == LoadSize(players, monsters)
    ensures |players| < U16_LIMIT && |monsters| < U16_LIMIT
    ensures LoadLength(players, monsters) <= LoadSize(players, monsters) <==>
            PlayerNames(players) + MonsterNames(monsters) <= 15 * |players| + 19 * |monsters|
  {
  }

  lemma GivenLoadIsFitting(players: seq<PlayerRec>, monsters: seq<MonsterRec>, after: seq<byte>)
    requires (forall p :: p in players ==> PlayerOk(p)) && (forall m :: m in monsters ==> MonsterOk(m))
    requires U16_LIMIT <= |after|
    requires var p := Sent(1, LoadSize(players, monsters), LoadFields(players, monsters), after);
             p.Some? && GivesLoad(p.value, players, monsters)
    ensures LoadSize(players, monsters) <= 65531
    ensures PlayerNames(players) + MonsterNames(monsters) <= 15 * |players| + 19 * |monsters|
  {
    hide Sent, LoadFields, GivesLoad, IsPacket, PacketId, PlayerNames, MonsterNames, PlayerOk, MonsterOk;
    SentIsPacket(1, LoadSize(players, monsters), LoadFields(players, monsters), after);
    GivenLoadFits(Sent(1, LoadSize(players, monsters), LoadFields(players, monsters), after).value, players, monsters);
    FittingLoadDoesNotOverflow(|players|, |monsters|, PlayerNames(players) + MonsterNames(monsters));
  }

  /** A size that wrapped around 16 bits leaves less room than even nameless records need. */
  lemma FittingLoadDoesNotOverflow(players: nat, monsters: nat, names: nat)
    requires 25 * players + 29 * monsters + names + 4 <= (40 * players + 48 * monsters + 4) % U16_LIMIT
    ensures 40 * players + 48 * monsters + 4 < U16_LIMIT && names <= 15 * players + 19 * monsters
  {
  }

  lemma CarriedLoadIsGiven(p: seq<byte>, players: seq<PlayerRec>, monsters: seq<MonsterRec>)
    requires (forall p :: p in players ==> PlayerOk(p)) && (forall m :: m in monsters ==> MonsterOk(m))
    requires |players| < U16_LIMIT && |monsters| < U16_LIMIT
    requires Carries(p, 1, Flatten(LoadFields(players, monsters)))
    ensures GivesLoad(p, players, monsters)
  {
    hide Flatten, LoadFields, TakeLoad, PacketId;
    var payload, bytes := p[HEADER_SIZE..], Flatten(LoadFields(players, monsters));
    assert payload == bytes + payload[|bytes|..];
    LoadReadsBack(players, monsters, payload[|bytes|..]);
  }

  lemma GivenLoadFits(p: seq<byte>, players: seq<PlayerRec>, monsters: seq<MonsterRec>)
    requires GivesLoad(p, players, monsters)
    ensures IsPacket(p) && LoadLength(players, monsters) <= |p| - HEADER_SIZE
    ensures |players| < U16_LIMIT && |monsters| < U16_LIMIT
  {
    hide PacketId, TakePlayer, TakeMonster, TakeMany, ReadU16;
    var (n, s1) := TakeU16(p[HEADER_SIZE..]);
    var rest := TakeMany(n, TakePlayer, s1).value.1;
    PlayersLength(n, s1, players, rest);
    var (m, s2) := TakeU16(rest);
    MonstersLength(m, s2, monsters, TakeMany(m, TakeMonster, s2).value.1);
  }

  // ----- the player notices, ids 2 and 5 -----

  /** Player::size(): eight bytes stand for the address of the name, sixteen for a position that is not written. */
  const NOTICE_SIZE := 33

  function NoticeFields(kind: nat, hp: byte, code: int, name: seq<byte>): seq<seq<byte>>
    requires kind < U16_LIMIT && IsI32(code) && |name| < U16_LIMIT
  {
    [U16(kind), [hp], I32(code), U16(|name|), name]
  }

  function TakeNotice(s: seq<byte>): (r: Option<(nat, byte, int, seq<byte>)>)
  {
    if |s| < 7 then None else
    var (kind, s1) := TakeU16(s);
    var (code, s2) := TakeI32(s1[1..]);
    match TakeName(s2)
    case None => None
    case Some((name, _)) => Some((kind, s1[0], code, name))
  }

  predicate GivesNotice(p: seq<byte>, id: nat, kind: nat, hp: byte, code: int, name: seq<byte>)
  {
    IsPacket(p) && PacketId(p) == id && TakeNotice(p[HEADER_SIZE..]) == Some((kind, hp, code, name))
  }

  lemma NoticeBytes(kind: nat, hp: byte, code: int, name: seq<byte>)
    requires kind < U16_LIMIT && IsI32(code) && |name| < U16_LIMIT
    ensures Flatten(NoticeFields(kind, hp, code, name)) == U16(kind) + ([hp] + (I32(code) + (U16(|name|) + name)))
  {
    hide Flatten, U16, I32;
    var tail := [U16(|name|), name];
    assert NoticeFields(kind, hp, code, name) == [U16(kind)] + ([[hp]] + ([I32(code)] + tail));
    FlattenCons(U16(kind), [[hp]] + ([I32(code)] + tail));
    FlattenCons([hp], [I32(code)] + tail);
    FlattenCons(I32(code), tail);
    FlattenPair(U16(|name|), name);
  }

  lemma TakesNotice(kind: nat, hp: byte, code: int, name: seq<byte>, rest: seq<byte>)
    requires kind < U16_LIMIT && IsI32(code) && |name| < U16_LIMIT
    ensures |Flatten(NoticeFields(kind, hp, code, name))| == 9 + |name|
    ensures TakeNotice(Flatten(NoticeFields(kind, hp, code, name)) + rest) == Some((kind, hp, code, name))
  {
    hide Flatten, U16, I32, TakeU16, TakeI32, TakeName, NoticeFields;
    NoticeBytes(kind, hp, code, name);
    var s2 := U16(|name|) + (name + rest);
    var s1 := [hp] + (I32(code) + s2);
    assert Flatten(NoticeFields(kind, hp, code, name)) + rest == U16(kind) + s1;
    TakesU16(kind, s1);
    assert s1[0] == hp && s1[1..] == I32(code) + s2;
    TakesI32(code, s2);
    TakesName(name, rest);
  }

  /** The other players read who joined exactly when the name has at most 24 bytes: the size does not depend on the
      name, and a longer one is dropped whole. */
  lemma NoticesAreExact(id: nat, kind: nat, hp: byte, code: int, name: seq<byte>, after: seq<byte>)
    requires id < U16_LIMIT && kind < U16_LIMIT && IsI32(code) && |name| < U16_LIMIT && U16_LIMIT <= |after|
    ensures var p := Sent(id, NOTICE_SIZE, NoticeFields(kind, hp, code, name), after);
            p.Some? && (GivesNotice(p.value, id, kind, hp, code, name) <==> |name| <= 24)
  {
    hide Sent, NoticeFields, Flatten, IsPacket, PacketId, EmitAll, TakeNotice;
    var fields := NoticeFields(kind, hp, code, name);
    TakesNotice(kind, hp, code, name, []);
    SentIsPacket(id, NOTICE_SIZE, fields, after);
    var p := Sent(id, NOTICE_SIZE, fields, after).value;
    CarriesExactlyWhatFits(id, NOTICE_SIZE, fields, after);
    var payload := p[HEADER_SIZE..];
    if |name| <= 24 {
      assert payload == Flatten(fields) + payload[|Flatten(fields)|..];
      TakesNotice(kind, hp, code, name, payload[|Flatten(fields)|..]);
    } else if GivesNotice(p, id, kind, hp, code, name) {
      NoticeLength(payload, name);
      assert false;
    }
  }

  lemma NoticeLength(s: seq<byte>, name: seq<byte>)
    requires TakeNotice(s).Some? && TakeNotice(s).value.3 == name
    ensures 9 + |name| <= |s|
  {
  }
}
