/** HandlePacket: what a session turns the packets of its client into, and what the other clients read from that. */
module Relays {
  import opened Bytes
  import opened Codec
  import opened Framing
  import opened Packets
  import opened Wrappers

  /** The jobs handed to the room. Join adds the session, Push queues in every session, Broadcast and Hit also send. */
  datatype Job = Join(fd: nat) | Push(bytes: seq<byte>) | Broadcast(bytes: seq<byte>)
    | Hit(bytes: seq<byte>, monster: int, attacker: int, damage: int)

  /** Overrun: making the packet writes past the end of its buffer. */
  datatype Outcome = Nothing | Queued(job: Job) | Overrun

  const HIT_DAMAGE := 10

  function ChatFields(code: nat, kind: byte, text: seq<byte>): seq<seq<byte>>
    requires code < U32_LIMIT && |text| < U32_LIMIT
  {
    [U32(code), [kind], U32(|text|), text[..|text| % U16_LIMIT]]
  }

  function HitFields(attacker: int, target: int, damage: int): seq<seq<byte>>
    requires IsI32(attacker) && IsI32(target) && IsI32(damage)
  {
    [I32(attacker), I32(target), I32(damage)]
  }

  /** The length field of a chat packet from a client. */
  function TextLength(p: seq<byte>): nat
    requires 9 <= |p|
  {
    ReadU32(p, 5)
  }

  /** The packet is as long as its fields say. */
  predicate WellFormed(p: seq<byte>)
  {
    IsPacket(p) &&
    var id := PacketId(p);
    && (id == 1 ==> 8 <= |p| && 8 + ReadU16(p, 6) <= |p|)
    && (id == 3 ==> 20 <= |p|)
    && (id == 4 ==> 9 <= |p| && 9 + TextLength(p) <= |p|)
    && (id == 7 ==> 8 <= |p|)
    && (id == 8 ==> 12 <= |p|)
  }

  /** What packet p of the client with socket fd leads to; fd is also the code of its player. */
  function Relay(fd: nat, p: seq<byte>, after: seq<byte>): (r: Outcome)
    requires IsI32(fd) && WellFormed(p) && U16_LIMIT <= |after|
  {
    var id := PacketId(p);
    if id == 1 then
      Queued(Join(fd))
    else if id == 3 then
      var moves := [MoveRec(fd, TakeVector(p[HEADER_SIZE..]).0, -1)];
      match Sent(3, MoveListSize(moves), MoveListFields(moves), after)
      case None => Overrun
      case Some(bytes) => Queued(Push(bytes))
    else if id == 4 then
      var text := p[9..9 + TextLength(p)];
      match Sent(4, 9 + |text|, ChatFields(fd, p[4], text), after)
      case None => Overrun
      case Some(bytes) => Queued(Broadcast(bytes))
    else if id == 7 then
      match Sent(7, 8, AttackFields(AttackRec(fd, TakeI32(p[HEADER_SIZE..]).0)), after)
      case None => Overrun
      case Some(bytes) => Queued(Broadcast(bytes))
    else if id == 8 then
      var target := TakeI32(p[HEADER_SIZE..]).0;
      var attacker := if target < 0 then fd else TakeI32(p[8..]).0;
      match Sent(8, 12, HitFields(attacker, target, HIT_DAMAGE), after)
      case None => Overrun
      case Some(bytes) => Queued(Hit(bytes, target, fd, HIT_DAMAGE))
    else
      Nothing
  }

  /** A client's reading of a relayed chat packet: code, kind, text. */
  function TakeChat(s: seq<byte>): (r: Option<(nat, byte, seq<byte>)>)
  {
    if |s| < 9 then None else
    var (code, s1) := TakeU32(s);
    var (n, s2) := TakeU32(s1[1..]);
    if |s2| < n then None else Some((code, s1[0], s2[..n]))
  }

  predicate GivesChat(p: seq<byte>, code: nat, kind: byte, text: seq<byte>)
  {
    IsPacket(p) && PacketId(p) == 4 && TakeChat(p[HEADER_SIZE..]) == Some((code, kind, text))
  }

  // ----- readers that advance an offset -----

  method ReadI32Ptr(buffer: seq<byte>, offset: nat) returns (value: int, next: nat)
    requires offset + 4 <= |buffer|
    ensures next == offset + 4 && TakeI32(buffer[offset..]) == (value, buffer[next..])
  {
    next := offset + 4;
    value := ReadI32(buffer[offset..next], 0);
  }

  method ReadU32Ptr(buffer: seq<byte>, offset: nat) returns (value: nat, next: nat)
    requires offset + 4 <= |buffer|
    ensures next == offset + 4 && TakeU32(buffer[offset..]) == (value, buffer[next..])
  {
    next := offset + 4;
    value := ReadU32(buffer[offset..next], 0);
  }

  method ReadVectorPtr(buffer: seq<byte>, offset: nat) returns (value: FVector, next: nat)
    requires offset + 16 <= |buffer|
    ensures next == offset + 16 && TakeVector(buffer[offset..]) == (value, buffer[next..])
  {
    hide TakeI32, TakeU32, ReadI32, ReadU32;
    var x, y, z, yaw, at;
    x, at := ReadI32Ptr(buffer, offset);
    y, at := ReadI32Ptr(buffer, at);
    z, at := ReadI32Ptr(buffer, at);
    yaw, next := ReadU32Ptr(buffer, at);
    value := FVector(x, y, z, yaw);
  }

  method ReadBufferStr(buffer: seq<byte>, offset: nat, len: nat) returns (value: seq<byte>, next: nat)
    requires offset + len <= |buffer|
    ensures next == offset + len && buffer[offset..] == value + buffer[next..] && |value| == len
  {
    next := offset + len;
    value := buffer[offset..next];
  }

  method ReadU16Ptr(buffer: seq<byte>, offset: nat) returns (value: nat, next: nat)
    requires offset + 2 <= |buffer|
    ensures next == offset + 2 && TakeU16(buffer[offset..]) == (value, buffer[next..])
  {
    next := offset + 2;
    value := ReadU16(buffer[offset..next], 0);
  }

  /** The player of a session, as far as packets set it. */
  datatype Player = Player(kind: nat, name: seq<byte>, position: FVector)

  /** The player after packet p. */
  function PlayerAfter(player: Player, p: seq<byte>): Player
    requires WellFormed(p)
  {
    var id := PacketId(p);
    if id == 1 then player.(kind := ReadU16(p, 4), name := p[8..8 + ReadU16(p, 6)])
    else if id == 3 then player.(position := TakeVector(p[HEADER_SIZE..]).0)
    else player
  }

  class GameSession {
    const fd: nat
    var player: Player

    constructor (fd: nat, player: Player)
      ensures this.fd == fd && this.player == player
    {
      this.fd, this.player := fd, player;
    }

    /** The bytes made for a packet, or none; the room is always there. */
    method HandlePacket(p: seq<byte>, after: seq<byte>) returns (r: Outcome)
      requires IsI32(fd) && WellFormed(p) && U16_LIMIT <= |after|
      modifies this
      ensures r == Relay(fd, p, after)
      ensures !r.Overrun? ==> player == PlayerAfter(old(player), p)
    {
      hide Sent, TakeVector, TakeI32, TakeU32, TakeU16, IsPacket, PacketId, ReadU32, ReadU16, MoveListFields,
        MoveListSize;
      var id, offset := PacketId(p), HEADER_SIZE;
      var made := None;
      if id == 1 {
        var kind, nameLen, name;
        FieldsAreRead(p);
        kind, offset := ReadU16Ptr(p, offset);
        nameLen, offset := ReadU16Ptr(p, offset);
        name, offset := ReadBufferStr(p, offset, nameLen);
        assert name == p[8..8 + nameLen];
        player := player.(name := name);
        player := player.(kind := kind);
        return Queued(Join(fd));
      } else if id == 3 {
        var pos;
        pos, offset := ReadVectorPtr(p, offset);
        var moves := [MoveRec(fd, pos, -1)];
        made := Sent(3, MoveListSize(moves), MoveListFields(moves), after);
        if made.None? {
          return Overrun;
        }
        player := player.(position := pos);
        return Queued(Push(made.value));
      } else if id == 4 {
        var kind, textLen, text := p[offset], 0, [];
        offset := offset + 1;
        textLen, offset := ReadU32Ptr(p, offset);
        TextLengthIsRead(p);
        text, offset := ReadBufferStr(p, offset, textLen);
        assert text == p[9..9 + textLen];
        made := Sent(4, 9 + textLen, ChatFields(fd, kind, text), after);
        return if made.None? then Overrun else Queued(Broadcast(made.value));
      } else if id == 7 {
        var skill;
        skill, offset := ReadI32Ptr(p, offset);
        made := Sent(7, 8, AttackFields(AttackRec(fd, skill)), after);
        return if made.None? then Overrun else Queued(Broadcast(made.value));
      } else if id == 8 {
        var target, attacker;
        target, offset := ReadI32Ptr(p, offset);
        attacker, offset := ReadI32Ptr(p, offset);
        if target < 0 {
          attacker := fd;
        }
        made := Sent(8, 12, HitFields(attacker, target, HIT_DAMAGE), after);
        return if made.None? then Overrun else Queued(Hit(made.value, target, fd, HIT_DAMAGE));
      }
      return Nothing;
    }
  }

  lemma FieldsAreRead(p: seq<byte>)
    requires 8 <= |p|
    ensures TakeU16(p[4..]).0 == ReadU16(p, 4) && TakeU16(p[6..]).0 == ReadU16(p, 6)
  {
  }

  lemma TextLengthIsRead(p: seq<byte>)
    requires 9 <= |p|
    ensures TakeU32(p[5..]).0 == TextLength(p)
  {
    assert ReadU32(p[5..], 0) == ReadU32(p, 5);
  }

  // ----- moves -----

  /** A client's move reaches the others as that client's move without target, whatever followed the position, and the
      player stands there from then on. */
  lemma MoveIsRelayed(fd: nat, player: Player, pos: FVector, extra: seq<byte>, after: seq<byte>)
    requires IsI32(fd) && VectorOk(pos) && |extra| <= 65515 && U16_LIMIT <= |after|
    ensures |Flatten(VectorFields(pos))| == 16
    ensures var p := MakePacket(3, Flatten(VectorFields(pos)) + extra);
            && WellFormed(p)
            && Relay(fd, p, after).Queued? && Relay(fd, p, after).job.Push?
            && GivesMoves(Relay(fd, p, after).job.bytes, [MoveRec(fd, pos, -1)])
            && PlayerAfter(player, p) == player.(position := pos)
  {
    hide Flatten, VectorFields, VectorOk, TakeVector, Sent, MoveListFields, MoveListSize, GivesMoves;
    TakesVector(pos, extra);
    var payload := Flatten(VectorFields(pos)) + extra;
    MadePacketReadsBack(3, payload);
    MoveListsAreExact([MoveRec(fd, pos, -1)], after);
  }

  /** Nothing but a login or a move changes the player. */
  lemma OthersLeavePlayer(player: Player, p: seq<byte>)
    requires WellFormed(p)
    ensures PlayerAfter(player, p) != player ==> PacketId(p) == 1 || PacketId(p) == 3
  {
  }

  /** Packets of any other kind are dropped. */
  lemma UnknownIsIgnored(fd: nat, player: Player, p: seq<byte>, after: seq<byte>)
    requires IsI32(fd) && WellFormed(p) && U16_LIMIT <= |after| && PacketId(p) !in {1, 3, 4, 7, 8}
    ensures Relay(fd, p, after) == Nothing && PlayerAfter(player, p) == player
  {
  }

  // ----- chat -----

  lemma ChatBytes(code: nat, kind: byte, text: seq<byte>)
    requires code < U32_LIMIT && |text| < U16_LIMIT
    ensures Flatten(ChatFields(code, kind, text)) == U32(code) + ([kind] + (U32(|text|) + text))
  {
    hide Flatten, U32;
    FlattenCons(U32(code), [[kind], U32(|text|), text]);
    FlattenCons([kind], [U32(|text|), text]);
    FlattenPair(U32(|text|), text);
    assert [[kind], U32(|text|), text] == [[kind]] + [U32(|text|), text];
    assert text[..|text| % U16_LIMIT] == text;
    assert ChatFields(code, kind, text) == [U32(code)] + [[kind], U32(|text|), text];
  }

  lemma TakesChat(code: nat, kind: byte, text: seq<byte>)
    requires code < U32_LIMIT && |text| < U32_LIMIT
    ensures TakeChat(U32(code) + ([kind] + (U32(|text|) + text))) == Some((code, kind, text))
  {
    hide U32, TakeU32;
    var s2 := U32(|text|) + text;
    var s1 := [kind] + s2;
    TakesU32(code, s1);
    assert s1[0] == kind && s1[1..] == s2;
    TakesU32(|text|, text);
    assert text[..|text|] == text;
  }

  /** Sending a chat works exactly up to 65522 bytes of text. For the next four lengths the packet size overflows 16
      bits and the packet is written past the end of its buffer. */
  lemma ChatsAreExact(code: nat, kind: byte, text: seq<byte>, after: seq<byte>)
    requires code < U32_LIMIT && |text| < U32_LIMIT && U16_LIMIT <= |after|
    ensures var p := Sent(4, 9 + |text|, ChatFields(code, kind, text), after);
            && (p.Some? && GivesChat(p.value, code, kind, text) <==> |text| <= 65522)
            && (p.None? <==> 65523 <= |text| % U16_LIMIT <= 65526)
  {
    hide Sent, ChatFields, Flatten, TakeChat, PacketId, MakePacket;
    var p := Sent(4, 9 + |text|, ChatFields(code, kind, text), after);
    ChatSizes(|text|);
    SentIsPacket(4, 9 + |text|, ChatFields(code, kind, text), after);
    if |text| <= 65522 {
      ChatBytes(code, kind, text);
      CarriesExactlyWhatFits(4, 9 + |text|, ChatFields(code, kind, text), after);
      MadePacketReadsBack(4, Flatten(ChatFields(code, kind, text)));
      TakesChat(code, kind, text);
    } else if p.Some? && GivesChat(p.value, code, kind, text) {
      GivenChatFits(p.value, code, kind, text);
      assert false;
    }
  }

  lemma ChatSizes(n: nat)
    ensures (9 + n) % U16_LIMIT > 65531 <==> 65523 <= n % U16_LIMIT <= 65526
    ensures n <= 65522 ==> 9 + n == (9 + n) % U16_LIMIT <= 65531
  {
    var q := n / U16_LIMIT;
    assert 9 + n == U16_LIMIT * q + (9 + n % U16_LIMIT);
  }

  lemma GivenChatFits(p: seq<byte>, code: nat, kind: byte, text: seq<byte>)
    requires GivesChat(p, code, kind, text)
    ensures |text| <= 65522
  {
    hide PacketId;
    assert |p| == ReadU16(p, 2) < U16_LIMIT;
  }

  /** A client's chat reaches the others exactly when its text has at most 65522 bytes. The client can send up to 65526,
      and with 65523 or more its relay overruns the buffer. */
  lemma ChatIsRelayed(fd: nat, kind: byte, text: seq<byte>, extra: seq<byte>, after: seq<byte>)
    requires IsI32(fd) && 5 + |text| + |extra| <= 65531 && U16_LIMIT <= |after|
    ensures var p := MakePacket(4, [kind] + U32(|text|) + text + extra);
            && WellFormed(p)
            && (if |text| <= 65522
                then Relay(fd, p, after).Queued? && Relay(fd, p, after).job.Broadcast?
                     && GivesChat(Relay(fd, p, after).job.bytes, fd, kind, text)
                else Relay(fd, p, after) == Overrun)
  {
    hide Sent, ChatFields, GivesChat;
    var p := MakePacket(4, [kind] + U32(|text|) + text + extra);
    ChatPacketReads(kind, text, extra);
    ChatsAreExact(fd, kind, text, after);
  }

  lemma ChatPacketReads(kind: byte, text: seq<byte>, extra: seq<byte>)
    requires 5 + |text| + |extra| <= 65531
    ensures var p := MakePacket(4, [kind] + U32(|text|) + text + extra);
            && WellFormed(p) && PacketId(p) == 4 && p[4] == kind
            && TextLength(p) == |text| && p[9..9 + |text|] == text
  {
    var payload := [kind] + U32(|text|) + text + extra;
    var p := MakePacket(4, payload);
    MadePacketReadsBack(4, payload);
    hide MakePacket, IsPacket, PacketId;
    TakesU32(|text|, text + extra);
    assert payload[1..] == U32(|text|) + (text + extra);
    assert p[5..] == payload[1..];
    assert ReadU32(p, 5) == ReadU32(p[5..], 0);
  }

  // ----- login -----

  /** A login sets kind and name as sent and joins the room. */
  lemma LoginIsTaken(fd: nat, player: Player, kind: nat, name: seq<byte>, extra: seq<byte>, after: seq<byte>)
    requires IsI32(fd) && kind < U16_LIMIT && 4 + |name| + |extra| <= 65531 && U16_LIMIT <= |after|
    ensures var p := MakePacket(1, U16(kind) + U16(|name|) + name + extra);
            && WellFormed(p) && Relay(fd, p, after) == Queued(Join(fd))
            && PlayerAfter(player, p) == player.(kind := kind, name := name)
  {
    var payload := U16(kind) + U16(|name|) + name + extra;
    var p := MakePacket(1, payload);
    MadePacketReadsBack(1, payload);
    hide MakePacket, IsPacket, PacketId;
    assert forall k :: 0 <= k < |payload| ==> p[HEADER_SIZE..][k] == payload[k];
    assert p[4] == payload[0] && p[5] == payload[1] && p[6] == payload[2] && p[7] == payload[3];
    assert p[8..8 + |name|] == p[HEADER_SIZE..][4..4 + |name|] == name;
  }

  // ----- attacks and hits -----

  /** A client's attack reaches the others as an attack of that client with the same skill. */
  lemma AttackIsRelayed(fd: nat, skill: int, extra: seq<byte>, after: seq<byte>)
    requires IsI32(fd) && IsI32(skill) && |extra| <= 65527 && U16_LIMIT <= |after|
    ensures var p := MakePacket(7, I32(skill) + extra);
            && WellFormed(p)
            && Relay(fd, p, after) == Queued(Broadcast(MakePacket(7, I32(fd) + I32(skill))))
  {
    hide I32, Sent, TakeI32, Flatten, AttackFields;
    TakesI32(skill, extra);
    MadePacketReadsBack(7, I32(skill) + extra);
    var fields := AttackFields(AttackRec(fd, skill));
    assert Flatten(fields) == I32(fd) + I32(skill) by { AttackBytes(AttackRec(fd, skill)); }
    CarriesExactlyWhatFits(7, 8, fields, after);
  }

  lemma AttackBytes(a: AttackRec)
    requires AttackOk(a)
    ensures Flatten(AttackFields(a)) == I32(a.code) + I32(a.skill)
  {
    hide I32, Flatten;
    FlattenPair(I32(a.code), I32(a.skill));
  }

  /** A hit on a monster (a negative code) is credited to the sender whatever attacker it names; a hit on a player keeps
      the attacker named. The room is always told of ten points of damage by the sender. */
  lemma HitIsRelayed(fd: nat, target: int, named: int, extra: seq<byte>, after: seq<byte>)
    requires IsI32(fd) && IsI32(target) && IsI32(named) && |extra| <= 65523 && U16_LIMIT <= |after|
    ensures var p := MakePacket(8, I32(target) + (I32(named) + extra));
            var attacker := if target < 0 then fd else named;
            && WellFormed(p)
            && Relay(fd, p, after) ==
               Queued(Hit(MakePacket(8, I32(attacker) + (I32(target) + I32(HIT_DAMAGE))), target, fd, HIT_DAMAGE))
  {
    hide I32, Sent, TakeI32, Flatten, HitFields;
    var attacker := if target < 0 then fd else named;
    var payload := I32(target) + (I32(named) + extra);
    var p := MakePacket(8, payload);
    MadePacketReadsBack(8, payload);
    assert p[8..] == payload[4..] == I32(named) + extra;
    TakesI32(target, I32(named) + extra);
    TakesI32(named, extra);
    var fields := HitFields(attacker, target, HIT_DAMAGE);
    HitBytes(attacker, target, HIT_DAMAGE);
    CarriesExactlyWhatFits(8, 12, fields, after);
  }

  lemma HitBytes(attacker: int, target: int, damage: int)
    requires IsI32(attacker) && IsI32(target) && IsI32(damage)
    ensures Flatten(HitFields(attacker, target, damage)) == I32(attacker) + (I32(target) + I32(damage))
  {
    hide I32, Flatten;
    FlattenCons(I32(attacker), [I32(target), I32(damage)]);
    FlattenPair(I32(target), I32(damage));
    assert HitFields(attacker, target, damage) == [I32(attacker)] + [I32(target), I32(damage)];
  }
}
