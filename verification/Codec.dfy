/** The payloads of the packets: what the writers emit, field by field, and readers that give the values back. */
module Codec {
  import opened Bytes
  import opened Wrappers

  // ----- bounded writing -----

  /** BufferWrite::Write on the bytes written so far: a field that does not fit is dropped whole. */
  function Emit(size: nat, written: seq<byte>, field: seq<byte>): seq<byte>
  {
    if |written| + |field| <= size then written + field else written
  }

  function EmitAll(size: nat, written: seq<byte>, fields: seq<seq<byte>>): seq<byte>
    decreases |fields|
  {
    if fields == [] then written else EmitAll(size, Emit(size, written, fields[0]), fields[1..])
  }

  /** Every Write in turn returns true. */
  predicate AllFit(size: nat, written: seq<byte>, fields: seq<seq<byte>>)
    decreases |fields|
  {
    fields == [] ||
    (|written| + |fields[0]| <= size && AllFit(size, Emit(size, written, fields[0]), fields[1..]))
  }

  lemma {:induction false} EmitAllConcat(size: nat, written: seq<byte>, a: seq<seq<byte>>, b: seq<seq<byte>>)
    ensures EmitAll(size, written, a + b) == EmitAll(size, EmitAll(size, written, a), b)
    ensures AllFit(size, written, a + b) <==> AllFit(size, written, a) && AllFit(size, EmitAll(size, written, a), b)
    decreases |a|
  {
    if a == [] {
      assert a + b == b;
    } else {
      assert (a + b)[1..] == a[1..] + b;
      EmitAllConcat(size, Emit(size, written, a[0]), a[1..], b);
    }
  }

  /** All writes succeed exactly when the fields fit together, and then nothing is dropped. */
  lemma {:induction false} AllFitExactly(size: nat, written: seq<byte>, fields: seq<seq<byte>>)
    requires |written| <= size
    ensures AllFit(size, written, fields) <==> |written| + |Flatten(fields)| <= size
    ensures AllFit(size, written, fields) ==> EmitAll(size, written, fields) == written + Flatten(fields)
    ensures |EmitAll(size, written, fields)| <= size
    decreases |fields|
  {
    if fields == [] {
      assert written + Flatten(fields) == written;
    } else {
      var next := Emit(size, written, fields[0]);
      AllFitExactly(size, next, fields[1..]);
      assert written + Flatten(fields) == written + fields[0] + Flatten(fields[1..]);
    }
  }

  /** Which fields Write lets through: each that fits behind those let through before it. */
  function Kept(size: nat, used: nat, fields: seq<seq<byte>>): (kept: seq<seq<byte>>)
    decreases |fields|
  {
    if fields == [] then []
    else if used + |fields[0]| <= size then [fields[0]] + Kept(size, used + |fields[0]|, fields[1..])
    else Kept(size, used, fields[1..])
  }

  /** A field is written whole or not at all, and a shorter one behind it may still be written. */
  lemma {:induction false} WritesWholeFields(size: nat, written: seq<byte>, fields: seq<seq<byte>>)
    ensures EmitAll(size, written, fields) == written + Flatten(Kept(size, |written|, fields))
    decreases |fields|
  {
    if fields == [] {
      assert written + Flatten([]) == written;
    } else {
      hide Flatten;
      WritesWholeFields(size, Emit(size, written, fields[0]), fields[1..]);
      if |written| + |fields[0]| <= size {
        var rest := Kept(size, |written| + |fields[0]|, fields[1..]);
        FlattenCons(fields[0], rest);
        assert written + fields[0] + Flatten(rest) == written + (fields[0] + Flatten(rest));
      }
    }
  }

  // ----- records -----

  /** Yaw is carried as the 32 bits of its float. */
  datatype FVector = FVector(x: int, y: int, z: int, yaw: nat)
  datatype MoveRec = MoveRec(code: int, pos: FVector, target: int)
  datatype AttackRec = AttackRec(code: int, skill: int)
  datatype PlayerRec = PlayerRec(kind: nat, hp: byte, code: int, pos: FVector, name: seq<byte>)
  datatype MonsterRec = MonsterRec(kind: nat, hp: byte, code: int, target: int, pos: FVector, name: seq<byte>)

  predicate VectorOk(v: FVector) { IsI32(v.x) && IsI32(v.y) && IsI32(v.z) && v.yaw < U32_LIMIT }
  predicate MoveOk(m: MoveRec) { IsI32(m.code) && VectorOk(m.pos) && IsI32(m.target) }
  predicate AttackOk(a: AttackRec) { IsI32(a.code) && IsI32(a.skill) }
  predicate PlayerOk(p: PlayerRec) { p.kind < U16_LIMIT && IsI32(p.code) && VectorOk(p.pos) && |p.name| < U16_LIMIT }
  predicate MonsterOk(m: MonsterRec)
  {
    m.kind < U16_LIMIT && IsI32(m.code) && IsI32(m.target) && VectorOk(m.pos) && |m.name| < U16_LIMIT
  }

  function VectorFields(v: FVector): seq<seq<byte>>
    requires VectorOk(v)
  {
    [I32(v.x), I32(v.y), I32(v.z), U32(v.yaw)]
  }

  function MoveFields(m: MoveRec): seq<seq<byte>>
    requires MoveOk(m)
  {
    [I32(m.code)] + VectorFields(m.pos) + [I32(m.target)]
  }

  function AttackFields(a: AttackRec): seq<seq<byte>>
    requires AttackOk(a)
  {
    [I32(a.code), I32(a.skill)]
  }

  function PlayerFields(p: PlayerRec): seq<seq<byte>>
    requires PlayerOk(p)
  {
    [U16(p.kind), [p.hp], I32(p.code)] + VectorFields(p.pos) + [U16(|p.name|), p.name]
  }

  function MonsterFields(m: MonsterRec): seq<seq<byte>>
    requires MonsterOk(m)
  {
    [U16(m.kind), [m.hp], I32(m.code), I32(m.target)] + VectorFields(m.pos) + [U16(|m.name|), m.name]
  }

  function MovesFields(moves: seq<MoveRec>): seq<seq<byte>>
    requires forall m :: m in moves ==> MoveOk(m)
  {
    if moves == [] then [] else MoveFields(moves[0]) + MovesFields(moves[1..])
  }

  function AttacksFields(attacks: seq<AttackRec>): seq<seq<byte>>
    requires forall a :: a in attacks ==> AttackOk(a)
  {
    if attacks == [] then [] else AttackFields(attacks[0]) + AttacksFields(attacks[1..])
  }

  function PlayersFields(players: seq<PlayerRec>): seq<seq<byte>>
    requires forall p :: p in players ==> PlayerOk(p)
  {
    if players == [] then [] else PlayerFields(players[0]) + PlayersFields(players[1..])
  }

  function MonstersFields(monsters: seq<MonsterRec>): seq<seq<byte>>
    requires forall m :: m in monsters ==> MonsterOk(m)
  {
    if monsters == [] then [] else MonsterFields(monsters[0]) + MonstersFields(monsters[1..])
  }

  // ----- reading, in the order of writing: each reader returns the value and what follows it -----

  function TakeU16(s: seq<byte>): (r: (nat, seq<byte>))
    requires 2 <= |s|
    ensures |r.1| == |s| - 2 && r.0 < U16_LIMIT
  {
    (ReadU16(s, 0), s[2..])
  }

  function TakeU32(s: seq<byte>): (r: (nat, seq<byte>))
    requires 4 <= |s|
    ensures |r.1| == |s| - 4 && r.0 < U32_LIMIT
  {
    (ReadU32(s, 0), s[4..])
  }

  function TakeI32(s: seq<byte>): (r: (int, seq<byte>))
    requires 4 <= |s|
    ensures |r.1| == |s| - 4 && IsI32(r.0)
  {
    (ReadI32(s, 0), s[4..])
  }

  function TakeVector(s: seq<byte>): (r: (FVector, seq<byte>))
    requires 16 <= |s|
    ensures |r.1| == |s| - 16 && VectorOk(r.0)
  {
    var (x, s1) := TakeI32(s);
    var (y, s2) := TakeI32(s1);
    var (z, s3) := TakeI32(s2);
    var (yaw, s4) := TakeU32(s3);
    (FVector(x, y, z, yaw), s4)
  }

  function TakeName(s: seq<byte>): (r: Option<(seq<byte>, seq<byte>)>)
    ensures r.Some? ==> |s| == 2 + |r.value.0| + |r.value.1|
  {
    if |s| < 2 then None else
    var (n, s1) := TakeU16(s);
    if |s1| < n then None else Some((s1[..n], s1[n..]))
  }

  function TakeMove(s: seq<byte>): (r: Option<(MoveRec, seq<byte>)>)
  {
    if |s| < 24 then None else
    var (code, s1) := TakeI32(s);
    var (pos, s2) := TakeVector(s1);
    var (target, s3) := TakeI32(s2);
    Some((MoveRec(code, pos, target), s3))
  }

  function TakeAttack(s: seq<byte>): (r: Option<(AttackRec, seq<byte>)>)
  {
    if |s| < 8 then None else
    var (code, s1) := TakeI32(s);
    var (skill, s2) := TakeI32(s1);
    Some((AttackRec(code, skill), s2))
  }

  function TakePlayer(s: seq<byte>): (r: Option<(PlayerRec, seq<byte>)>)
  {
    if |s| < 23 then None else
    var (kind, s1) := TakeU16(s);
    var (code, s2) := TakeI32(s1[1..]);
    var (pos, s3) := TakeVector(s2);
    match TakeName(s3)
    case None => None
    case Some((name, s4)) => Some((PlayerRec(kind, s1[0], code, pos, name), s4))
  }

  function TakeMonster(s: seq<byte>): (r: Option<(MonsterRec, seq<byte>)>)
  {
    if |s| < 27 then None else
    var (kind, s1) := TakeU16(s);
    var (code, s2) := TakeI32(s1[1..]);
    var (target, s3) := TakeI32(s2);
    var (pos, s4) := TakeVector(s3);
    match TakeName(s4)
    case None => None
    case Some((name, s5)) => Some((MonsterRec(kind, s1[0], code, target, pos, name), s5))
  }

  /** n records, one after the other. */
  function TakeMany<T>(n: nat, take: seq<byte> -> Option<(T, seq<byte>)>,
                       s: seq<byte>): (r: Option<(seq<T>, seq<byte>)>)
  {
    if n == 0 then Some(([], s)) else
    match take(s)
    case None => None
    case Some((x, s1)) =>
      match TakeMany(n - 1, take, s1)
      case None => None
      case Some((xs, s2)) => Some(([x] + xs, s2))
  }

  /** A count of 16 bits, then that many records. */
  function TakeList<T>(take: seq<byte> -> Option<(T, seq<byte>)>, s: seq<byte>): (r: Option<(seq<T>, seq<byte>)>)
  {
    if |s| < 2 then None else
    var (n, s1) := TakeU16(s);
    TakeMany(n, take, s1)
  }

  function TakeLoad(s: seq<byte>): (r: Option<(seq<PlayerRec>, seq<MonsterRec>)>)
  {
    match TakeList(TakePlayer, s)
    case None => None
    case Some((players, s1)) =>
      match TakeList(TakeMonster, s1)
      case None => None
      case Some((monsters, _)) => Some((players, monsters))
  }

  // ----- readers undo writers -----

  lemma TakesU16(n: nat, rest: seq<byte>)
    requires n < U16_LIMIT
    ensures TakeU16(U16(n) + rest) == (n, rest)
  {
  }

  lemma TakesU32(n: nat, rest: seq<byte>)
    requires n < U32_LIMIT
    ensures TakeU32(U32(n) + rest) == (n, rest)
  {
    var s := U32(n) + rest;
    assert ReadU16(s, 0) == n % U16_LIMIT && ReadU16(s, 2) == n / U16_LIMIT;
  }

  lemma TakesI32(n: int, rest: seq<byte>)
    requires IsI32(n)
    ensures TakeI32(I32(n) + rest) == (n, rest)
  {
    TakesU32(if n < 0 then n + U32_LIMIT else n, rest);
  }

  lemma TakesName(name: seq<byte>, rest: seq<byte>)
    requires |name| < U16_LIMIT
    ensures TakeName(U16(|name|) + (name + rest)) == Some((name, rest))
  {
    TakesU16(|name|, name + rest);
  }

  lemma FlattenNone()
    ensures Flatten([]) == []
  {
  }

  lemma FlattenOne(a: seq<byte>)
    ensures Flatten([a]) == a
  {
    FlattenCons(a, []);
    assert [a] + [] == [a] && a + [] == a;
  }

  lemma FlattenPair(a: seq<byte>, b: seq<byte>)
    ensures Flatten([a, b]) == a + b
  {
    FlattenCons(a, [b]);
    FlattenOne(b);
    assert [a] + [b] == [a, b];
  }

  lemma TakesVector(v: FVector, rest: seq<byte>)
    requires VectorOk(v)
    ensures |Flatten(VectorFields(v))| == 16 && TakeVector(Flatten(VectorFields(v)) + rest) == (v, rest)
  {
    var x, y, z, w := I32(v.x), I32(v.y), I32(v.z), U32(v.yaw);
    assert Flatten(VectorFields(v)) == x + y + (z + w) by {
      hide Flatten, I32, U32;
      assert VectorFields(v) == [x, y] + [z, w];
      FlattenConcat([x, y], [z, w]);
      FlattenPair(x, y);
      FlattenPair(z, w);
    }
    assert Flatten(VectorFields(v)) + rest == x + (y + (z + (w + rest)));
    hide I32, U32, ReadI32, ReadU32, Flatten;
    TakesI32(v.x, y + (z + (w + rest)));
    TakesI32(v.y, z + (w + rest));
    TakesI32(v.z, w + rest);
    TakesU32(v.yaw, rest);
  }

  lemma MoveBytes(m: MoveRec)
    requires MoveOk(m)
    ensures Flatten(MoveFields(m)) == I32(m.code) + (Flatten(VectorFields(m.pos)) + I32(m.target))
  {
    hide Flatten, I32, VectorFields;
    var v := VectorFields(m.pos);
    assert MoveFields(m) == [I32(m.code)] + (v + [I32(m.target)]);
    FlattenCons(I32(m.code), v + [I32(m.target)]);
    FlattenConcat(v, [I32(m.target)]);
    FlattenOne(I32(m.target));
  }

  lemma TakesMove(m: MoveRec, rest: seq<byte>)
    requires MoveOk(m)
    ensures |Flatten(MoveFields(m))| == 24 && TakeMove(Flatten(MoveFields(m)) + rest) == Some((m, rest))
  {
    hide Flatten, I32, VectorFields, TakeI32, TakeVector, MoveFields;
    MoveBytes(m);
    var v, t := Flatten(VectorFields(m.pos)), I32(m.target);
    assert Flatten(MoveFields(m)) + rest == I32(m.code) + (v + (t + rest));
    TakesI32(m.code, v + (t + rest));
    TakesVector(m.pos, t + rest);
    TakesI32(m.target, rest);
  }

  lemma TakesAttack(a: AttackRec, rest: seq<byte>)
    requires AttackOk(a)
    ensures |Flatten(AttackFields(a))| == 8 && TakeAttack(Flatten(AttackFields(a)) + rest) == Some((a, rest))
  {
    hide Flatten, I32, TakeI32;
    FlattenPair(I32(a.code), I32(a.skill));
    assert Flatten(AttackFields(a)) + rest == I32(a.code) + (I32(a.skill) + rest);
    TakesI32(a.code, I32(a.skill) + rest);
    TakesI32(a.skill, rest);
  }

  lemma PlayerBytes(p: PlayerRec)
    requires PlayerOk(p)
    ensures Flatten(PlayerFields(p)) ==
            U16(p.kind) + ([p.hp] + (I32(p.code) + (Flatten(VectorFields(p.pos)) + (U16(|p.name|) + p.name))))
  {
    hide Flatten, U16, I32, VectorFields;
    var v, n := VectorFields(p.pos), [U16(|p.name|), p.name];
    assert PlayerFields(p) == [U16(p.kind)] + ([[p.hp]] + ([I32(p.code)] + (v + n)));
    FlattenCons(U16(p.kind), [[p.hp]] + ([I32(p.code)] + (v + n)));
    FlattenCons([p.hp], [I32(p.code)] + (v + n));
    FlattenCons(I32(p.code), v + n);
    FlattenConcat(v, n);
    FlattenPair(U16(|p.name|), p.name);
  }

  lemma TakesPlayer(p: PlayerRec, rest: seq<byte>)
    requires PlayerOk(p)
    ensures |Flatten(PlayerFields(p))| == 25 + |p.name|
    ensures TakePlayer(Flatten(PlayerFields(p)) + rest) == Some((p, rest))
  {
    hide Flatten, U16, I32, VectorFields, TakeU16, TakeI32, TakeVector, TakeName, PlayerFields;
    PlayerBytes(p);
    var v, l := Flatten(VectorFields(p.pos)), U16(|p.name|);
    var s3 := l + (p.name + rest);
    var s2 := I32(p.code) + (v + s3);
    var s1 := [p.hp] + s2;
    assert Flatten(PlayerFields(p)) + rest == U16(p.kind) + s1;
    TakesU16(p.kind, s1);
    assert s1[0] == p.hp && s1[1..] == s2;
    TakesI32(p.code, v + s3);
    TakesVector(p.pos, s3);
    TakesName(p.name, rest);
  }

  lemma MonsterBytes(m: MonsterRec)
    requires MonsterOk(m)
    ensures Flatten(MonsterFields(m)) ==
            U16(m.kind) + ([m.hp] + (I32(m.code) + (I32(m.target) +
            (Flatten(VectorFields(m.pos)) + (U16(|m.name|) + m.name)))))
  {
    hide Flatten, U16, I32, VectorFields;
    var v, n := VectorFields(m.pos), [U16(|m.name|), m.name];
    assert MonsterFields(m) == [U16(m.kind)] + ([[m.hp]] + ([I32(m.code)] + ([I32(m.target)] + (v + n))));
    FlattenCons(U16(m.kind), [[m.hp]] + ([I32(m.code)] + ([I32(m.target)] + (v + n))));
    FlattenCons([m.hp], [I32(m.code)] + ([I32(m.target)] + (v + n)));
    FlattenCons(I32(m.code), [I32(m.target)] + (v + n));
    FlattenCons(I32(m.target), v + n);
    FlattenConcat(v, n);
    FlattenPair(U16(|m.name|), m.name);
  }

  lemma TakesMonster(m: MonsterRec, rest: seq<byte>)
    requires MonsterOk(m)
    ensures |Flatten(MonsterFields(m))| == 29 + |m.name|
    ensures TakeMonster(Flatten(MonsterFields(m)) + rest) == Some((m, rest))
  {
    hide Flatten, U16, I32, VectorFields, TakeU16, TakeI32, TakeVector, TakeName, MonsterFields;
    MonsterBytes(m);
    var v, l := Flatten(VectorFields(m.pos)), U16(|m.name|);
    var s4 := l + (m.name + rest);
    var s3 := I32(m.target) + (v + s4);
    var s2 := I32(m.code) + s3;
    var s1 := [m.hp] + s2;
    assert Flatten(MonsterFields(m)) + rest == U16(m.kind) + s1;
    TakesU16(m.kind, s1);
    assert s1[0] == m.hp && s1[1..] == s2;
    TakesI32(m.code, s3);
    TakesI32(m.target, v + s4);
    TakesVector(m.pos, s4);
    TakesName(m.name, rest);
  }

  // ----- lists -----

  lemma TakesList<T>(take: seq<byte> -> Option<(T, seq<byte>)>, items: seq<T>, body: seq<byte>, rest: seq<byte>)
    requires |items| < U16_LIMIT && TakeMany(|items|, take, body + rest) == Some((items, rest))
    ensures TakeList(take, U16(|items|) + body + rest) == Some((items, rest))
  {
    hide TakeMany, TakeU16, U16;
    TakesU16(|items|, body + rest);
    assert U16(|items|) + body + rest == U16(|items|) + (body + rest);
  }

  lemma {:induction false} TakesMoves(moves: seq<MoveRec>, rest: seq<byte>)
    requires forall m :: m in moves ==> MoveOk(m)
    ensures |Flatten(MovesFields(moves))| == 24 * |moves|
    ensures TakeMany(|moves|, TakeMove, Flatten(MovesFields(moves)) + rest) == Some((moves, rest))
  {
    hide Flatten, MoveFields, TakeMove;
    if moves == [] {
      assert Flatten([]) + rest == rest by { FlattenNone(); }
    } else {
      var tail := Flatten(MovesFields(moves[1..]));
      FlattenConcat(MoveFields(moves[0]), MovesFields(moves[1..]));
      assert Flatten(MovesFields(moves)) + rest == Flatten(MoveFields(moves[0])) + (tail + rest);
      TakesMove(moves[0], tail + rest);
      TakesMoves(moves[1..], rest);
      assert [moves[0]] + moves[1..] == moves;
    }
  }

  lemma {:induction false} TakesAttacks(attacks: seq<AttackRec>, rest: seq<byte>)
    requires forall a :: a in attacks ==> AttackOk(a)
    ensures |Flatten(AttacksFields(attacks))| == 8 * |attacks|
    ensures TakeMany(|attacks|, TakeAttack, Flatten(AttacksFields(attacks)) + rest) == Some((attacks, rest))
  {
    hide Flatten, AttackFields, TakeAttack;
    if attacks == [] {
      assert Flatten([]) + rest == rest by { FlattenNone(); }
    } else {
      var tail := Flatten(AttacksFields(attacks[1..]));
      FlattenConcat(AttackFields(attacks[0]), AttacksFields(attacks[1..]));
      assert Flatten(AttacksFields(attacks)) + rest == Flatten(AttackFields(attacks[0])) + (tail + rest);
      TakesAttack(attacks[0], tail + rest);
      TakesAttacks(attacks[1..], rest);
      assert [attacks[0]] + attacks[1..] == attacks;
    }
  }

  function PlayerNames(players: seq<PlayerRec>): nat
  {
    if players == [] then 0 else |players[0].name| + PlayerNames(players[1..])
  }

  function MonsterNames(monsters: seq<MonsterRec>): nat
  {
    if monsters == [] then 0 else |monsters[0].name| + MonsterNames(monsters[1..])
  }

  lemma {:induction false} TakesPlayers(players: seq<PlayerRec>, rest: seq<byte>)
    requires forall p :: p in players ==> PlayerOk(p)
    ensures |Flatten(PlayersFields(players))| == 25 * |players| + PlayerNames(players)
    ensures TakeMany(|players|, TakePlayer, Flatten(PlayersFields(players)) + rest) == Some((players, rest))
  {
    hide Flatten, PlayerFields, TakePlayer;
    if players == [] {
      assert Flatten([]) + rest == rest by { FlattenNone(); }
    } else {
      var tail := Flatten(PlayersFields(players[1..]));
      FlattenConcat(PlayerFields(players[0]), PlayersFields(players[1..]));
      assert Flatten(PlayersFields(players)) + rest == Flatten(PlayerFields(players[0])) + (tail + rest);
      TakesPlayer(players[0], tail + rest);
      TakesPlayers(players[1..], rest);
      assert [players[0]] + players[1..] == players;
    }
  }

  lemma {:induction false} TakesMonsters(monsters: seq<MonsterRec>, rest: seq<byte>)
    requires forall m :: m in monsters ==> MonsterOk(m)
    ensures |Flatten(MonstersFields(monsters))| == 29 * |monsters| + MonsterNames(monsters)
    ensures TakeMany(|monsters|, TakeMonster, Flatten(MonstersFields(monsters)) + rest) == Some((monsters, rest))
  {
    hide Flatten, MonsterFields, TakeMonster;
    if monsters == [] {
      assert Flatten([]) + rest == rest by { FlattenNone(); }
    } else {
      var tail := Flatten(MonstersFields(monsters[1..]));
      FlattenConcat(MonsterFields(monsters[0]), MonstersFields(monsters[1..]));
      assert Flatten(MonstersFields(monsters)) + rest == Flatten(MonsterFields(monsters[0])) + (tail + rest);
      TakesMonster(monsters[0], tail + rest);
      TakesMonsters(monsters[1..], rest);
      assert [monsters[0]] + monsters[1..] == monsters;
    }
  }

  // ----- how much a reader consumes -----

  lemma TookNone<T>(take: seq<byte> -> Option<(T, seq<byte>)>, s: seq<byte>)
    ensures TakeMany(0, take, s) == Some(([], s))
  {
  }

  lemma TookOneThenMany<T>(n: nat, take: seq<byte> -> Option<(T, seq<byte>)>, s: seq<byte>)
    requires n != 0 && TakeMany(n, take, s).Some?
    ensures take(s).Some?
    ensures var (x, s1) := take(s).value;
            TakeMany(n - 1, take, s1).Some? &&
            var (xs, s2) := TakeMany(n - 1, take, s1).value;
            TakeMany(n, take, s).value == ([x] + xs, s2)
  {
  }

  lemma {:induction false} MovesLength(n: nat, s: seq<byte>)
    requires TakeMany(n, TakeMove, s).Some?
    ensures var (moves, rest) := TakeMany(n, TakeMove, s).value; |moves| == n && |s| == 24 * n + |rest|
  {
    if n != 0 {
      MovesLength(n - 1, TakeMove(s).value.1);
    }
  }

  lemma {:induction false} AttacksLength(n: nat, s: seq<byte>)
    requires TakeMany(n, TakeAttack, s).Some?
    ensures var (attacks, rest) := TakeMany(n, TakeAttack, s).value; |attacks| == n && |s| == 8 * n + |rest|
  {
    if n != 0 {
      AttacksLength(n - 1, TakeAttack(s).value.1);
    }
  }

  lemma PlayerLength(s: seq<byte>)
    requires TakePlayer(s).Some?
    ensures |s| == 25 + |TakePlayer(s).value.0.name| + |TakePlayer(s).value.1|
  {
    hide TakeU16, TakeI32, TakeVector, TakeName;
  }

  lemma MonsterLength(s: seq<byte>)
    requires TakeMonster(s).Some?
    ensures |s| == 29 + |TakeMonster(s).value.0.name| + |TakeMonster(s).value.1|
  {
    hide TakeU16, TakeI32, TakeVector, TakeName;
  }

  lemma PlayerNamesNone()
    ensures PlayerNames([]) == 0
  {
  }

  lemma PlayerNamesCons(player: PlayerRec, players: seq<PlayerRec>)
    ensures PlayerNames([player] + players) == |player.name| + PlayerNames(players)
  {
    assert ([player] + players)[1..] == players;
  }

  lemma {:induction false} PlayersLength(n: nat, s: seq<byte>, players: seq<PlayerRec>, rest: seq<byte>)
    requires TakeMany(n, TakePlayer, s) == Some((players, rest))
    ensures |players| == n && |s| == 25 * n + PlayerNames(players) + |rest|
  {
    hide TakePlayer, TakeMany, PlayerNames;
    if n == 0 {
      TookNone(TakePlayer, s);
      assert players == [];
      assert PlayerNames([]) == 0 by { PlayerNamesNone(); }
    } else {
      TookOneThenMany(n, TakePlayer, s);
      PlayerLength(s);
      var one := TakePlayer(s).value;
      var others := TakeMany(n - 1, TakePlayer, one.1).value.0;
      PlayersLength(n - 1, one.1, others, rest);
      PlayerNamesCons(one.0, others);
    }
  }

  lemma MonsterNamesNone()
    ensures MonsterNames([]) == 0
  {
  }

  lemma MonsterNamesCons(monster: MonsterRec, monsters: seq<MonsterRec>)
    ensures MonsterNames([monster] + monsters) == |monster.name| + MonsterNames(monsters)
  {
    assert ([monster] + monsters)[1..] == monsters;
  }

  lemma {:induction false} MonstersLength(n: nat, s: seq<byte>, monsters: seq<MonsterRec>, rest: seq<byte>)
    requires TakeMany(n, TakeMonster, s) == Some((monsters, rest))
    ensures |monsters| == n && |s| == 29 * n + MonsterNames(monsters) + |rest|
  {
    hide TakeMonster, TakeMany, MonsterNames;
    if n == 0 {
      TookNone(TakeMonster, s);
      assert monsters == [];
      assert MonsterNames([]) == 0 by { MonsterNamesNone(); }
    } else {
      TookOneThenMany(n, TakeMonster, s);
      MonsterLength(s);
      var one := TakeMonster(s).value;
      var others := TakeMany(n - 1, TakeMonster, one.1).value.0;
      MonstersLength(n - 1, one.1, others, rest);
      MonsterNamesCons(one.0, others);
    }
  }
}
