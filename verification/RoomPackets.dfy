/** From the reports of a round to the packets the players read. */
module RoomPackets {
  import opened Bytes
  import opened Codec
  import opened Framing
  import opened Packets
  import opened Wrappers
  import opened Geometry
  import opened Monsters
  import opened GameRooms

  const SKILL := 1

  /** The reports as list entries. yaws: where each monster looks, as the 32 bits of its float. */
  function MovesOf(reports: seq<Report>, yaws: map<int, nat>): (moves: seq<MoveRec>)
    requires forall r :: r in reports ==> r.Moved?
    ensures |moves| == |reports|
  {
    if reports == [] then [] else
    assert reports[0] in reports;
    var r := reports[0];
    var pos := FVector(r.pos.x, r.pos.y, r.pos.z, if r.code in yaws then yaws[r.code] else 0);
    [MoveRec(r.code, pos, r.target)] + MovesOf(reports[1..], yaws)
  }

  function AttacksOf(reports: seq<Report>): (attacks: seq<AttackRec>)
    requires forall r :: r in reports ==> r.Attacked?
    ensures |attacks| == |reports|
  {
    if reports == [] then [] else
    assert reports[0] in reports;
    [AttackRec(reports[0].code, SKILL)] + AttacksOf(reports[1..])
  }

  /** A player's reading of the entries. */
  function ReportsOfMoves(moves: seq<MoveRec>): seq<Report>
  {
    if moves == [] then [] else
    var m := moves[0];
    [Moved(m.code, Pos(m.pos.x, m.pos.y, m.pos.z), m.target)] + ReportsOfMoves(moves[1..])
  }

  function ReportsOfAttacks(attacks: seq<AttackRec>): seq<Report>
  {
    if attacks == [] then [] else [Attacked(attacks[0].code)] + ReportsOfAttacks(attacks[1..])
  }

  predicate YawsOk(yaws: map<int, nat>) { forall c :: c in yaws ==> yaws[c] < U32_LIMIT }

  /** What r says fits the integers of its packet. */
  predicate Sayable(r: Report)
  {
    match r
    case Attacked(code) => IsI32(code)
    case Moved(code, pos, target) => IsI32(code) && IsI32(pos.x) && IsI32(pos.y) && IsI32(pos.z) && IsI32(target)
    case Quiet => true
  }

  lemma {:induction false} MovesSayReports(reports: seq<Report>, yaws: map<int, nat>)
    requires YawsOk(yaws) && forall r :: r in reports ==> r.Moved? && Sayable(r)
    ensures (forall m :: m in MovesOf(reports, yaws) ==> MoveOk(m)) && ReportsOfMoves(MovesOf(reports, yaws)) == reports
    ensures forall m :: m in MovesOf(reports, yaws) && m.code in yaws ==> m.pos.yaw == yaws[m.code]
  {
    if reports != [] {
      assert reports[0] in reports;
      MovesSayReports(reports[1..], yaws);
      var moves := MovesOf(reports, yaws);
      assert moves[1..] == MovesOf(reports[1..], yaws) && reports == [reports[0]] + reports[1..];
      assert forall m :: m in moves ==> m == moves[0] || m in moves[1..];
    }
  }

  lemma {:induction false} AttacksSayReports(reports: seq<Report>)
    requires forall r :: r in reports ==> r.Attacked? && Sayable(r)
    ensures (forall a :: a in AttacksOf(reports) ==> AttackOk(a)) && ReportsOfAttacks(AttacksOf(reports)) == reports
    ensures forall a :: a in AttacksOf(reports) ==> a.skill == 1
  {
    if reports != [] {
      assert reports[0] in reports;
      AttacksSayReports(reports[1..]);
      var attacks := AttacksOf(reports);
      assert attacks[1..] == AttacksOf(reports[1..]) && reports == [reports[0]] + reports[1..];
      assert forall a :: a in attacks ==> a == attacks[0] || a in attacks[1..];
    }
  }

  // ----- what a round reports can be said -----

  /** Monsters a round can start from. */
  ghost predicate RoomTellable(ms: map<int, Mon>, players: map<int, Pos>, aims: map<int, Aim>)
  {
    && ms.Keys <= aims.Keys
    && (forall k :: k in ms ==> Tellable(ms[k]) && IsI32(ms[k].code) && AimFits(Respawn(ms[k]), players, aims[k]))
  }

  lemma TellableAt(ms: map<int, Mon>, players: map<int, Pos>, aims: map<int, Aim>, k: int)
    requires RoomTellable(ms, players, aims) && k in ms
    ensures k in aims && Tellable(ms[k]) && IsI32(ms[k].code) && AimFits(Respawn(ms[k]), players, aims[k])
  {
  }

  lemma ActIsSayable(m: Mon, players: map<int, Pos>, aim: Aim)
    requires Tellable(m) && IsI32(m.code) && AimFits(Respawn(m), players, aim)
    ensures Sayable(Act(Respawn(m), players, aim).1)
  {
    StepKeepsTellable(m, Tick(players, aim));
    hide Advance, Clamp, IsAim, InRange, InRect, AimFits, Possible;
    ReportsOwnState(Respawn(m), players, aim);
  }

  /** A report tells the place of the monster after its act, and its target before it or nobody. */
  lemma ReportsOwnState(m: Mon, players: map<int, Pos>, aim: Aim)
    ensures var (n, r) := Act(m, players, aim);
            && (r.Attacked? ==> r.code == m.code)
            && (r.Moved? ==> r.code == m.code && r.pos == n.pos && (r.target == m.target || r.target == NOBODY))
  {
    hide Advance, Clamp, InRange, InRect;
  }

  lemma {:induction false} ReportsAreSayable(codes: seq<int>, ms: map<int, Mon>, players: map<int, Pos>,
                                             aims: map<int, Aim>, attack: bool)
    requires RoomTellable(ms, players, aims) && forall i :: 0 <= i < |codes| ==> codes[i] in ms
    ensures forall r :: r in Reports(codes, Respawned(ms), players, aims, attack) ==>
              Sayable(r) && (if attack then r.Attacked? else r.Moved?)
  {
    hide Act, Tellable, AimFits, Sayable, Respawn;
    if codes != [] {
      var n := |codes| - 1;
      ReportsAreSayable(codes[..n], ms, players, aims, attack);
      var k := codes[n];
      assert k in ms;
      TellableAt(ms, players, aims, k);
      ActIsSayable(ms[k], players, aims[k]);
    }
  }

  // ----- the packets of a round -----

  /** What MoveMosters sends to a session: the attacks, if there are any, and then the moves. */
  function RoundPackets(moves: seq<MoveRec>, attacks: seq<AttackRec>, after: seq<byte>): seq<Option<seq<byte>>>
    requires (forall m :: m in moves ==> MoveOk(m)) && (forall a :: a in attacks ==> AttackOk(a))
    requires U16_LIMIT <= |after|
  {
    (if attacks == [] then [] else [Sent(9, AttackListSize(attacks), AttackListFields(attacks), after)]) +
    [Sent(3, MoveListSize(moves), MoveListFields(moves), after)]
  }

  /** The packets ps give a player the reports of a round: attacks in a packet of their own before the moves. */
  ghost predicate GiveReports(ps: seq<seq<byte>>, moves: seq<Report>, attacks: seq<Report>)
  {
    && |ps| == (if attacks == [] then 1 else 2)
    && (exists ms :: GivesMoves(ps[|ps| - 1], ms) && ReportsOfMoves(ms) == moves)
    && (attacks != [] ==> exists xs :: GivesAttacks(ps[0], xs) && ReportsOfAttacks(xs) == attacks)
  }

  lemma ReportsAreRead(moves: seq<Report>, attacks: seq<Report>, yaws: map<int, nat>, after: seq<byte>)
    requires YawsOk(yaws) && U16_LIMIT <= |after| && |moves| <= 2730 && |attacks| <= 8191
    requires forall r :: r in moves ==> r.Moved? && Sayable(r)
    requires forall r :: r in attacks ==> r.Attacked? && Sayable(r)
    ensures forall m :: m in MovesOf(moves, yaws) ==> MoveOk(m)
    ensures forall a :: a in AttacksOf(attacks) ==> AttackOk(a)
    ensures var sent := RoundPackets(MovesOf(moves, yaws), AttacksOf(attacks), after);
            && (forall p :: p in sent ==> p.Some?)
            && GiveReports(Values(sent), moves, attacks)
  {
    hide MoveOk, AttackOk, Sent, GivesMoves, GivesAttacks, Sayable, MovesOf, AttacksOf, ReportsOfMoves,
      ReportsOfAttacks, MoveListFields, AttackListFields, MoveListSize, AttackListSize;
    MovesSayReports(moves, yaws);
    AttacksSayReports(attacks);
    MoveListsAreExact(MovesOf(moves, yaws), after);
    AttackListsAreExact(AttacksOf(attacks), after);
    var sent := RoundPackets(MovesOf(moves, yaws), AttacksOf(attacks), after);
    assert |sent| == if attacks == [] then 1 else 2;
    var ps := Values(sent);
    assert GivesMoves(ps[|ps| - 1], MovesOf(moves, yaws));
    assert attacks != [] ==> GivesAttacks(ps[0], AttacksOf(attacks));
  }

  function Values(sent: seq<Option<seq<byte>>>): (ps: seq<seq<byte>>)
    requires forall p :: p in sent ==> p.Some?
    ensures |ps| == |sent| && forall i :: 0 <= i < |sent| ==> ps[i] == sent[i].value
  {
    if sent == [] then [] else
    assert sent[0] in sent;
    [sent[0].value] + Values(sent[1..])
  }

  /** In every run of a room of at most 2730 monsters, the packets made from the next round are read back by every
      player as exactly the attacks and the moves of that round. */
  lemma RoundsAreRead(ms: map<int, Mon>, run: seq<RoomEvent>, codes: seq<int>, players: map<int, Pos>,
                      aims: map<int, Aim>, yaws: map<int, nat>, after: seq<byte>)
    requires IsNewRoom(ms) && (forall k :: k in ms ==> IsI32(k)) && CanRun(ms, run)
    requires RoomPossible(RoomAfter(ms, run), RoomRound(players, aims))
    requires |codes| <= 2730 && (forall i :: 0 <= i < |codes| ==> codes[i] in ms)
    requires YawsOk(yaws) && U16_LIMIT <= |after|
    ensures var start := Respawned(RoomAfter(ms, run));
            var moves := Reports(codes, start, players, aims, false);
            var attacks := Reports(codes, start, players, aims, true);
            && (forall r :: r in moves ==> r.Moved?) && (forall r :: r in attacks ==> r.Attacked?)
            && (forall m :: m in MovesOf(moves, yaws) ==> MoveOk(m))
            && (forall a :: a in AttacksOf(attacks) ==> AttackOk(a))
            && var sent := RoundPackets(MovesOf(moves, yaws), AttacksOf(attacks), after);
            && (forall p :: p in sent ==> p.Some?)
            && GiveReports(Values(sent), moves, attacks)
  {
    hide RoundPackets, GiveReports, MovesOf, AttacksOf, Sayable, MoveOk, AttackOk, Tellable, CanRun, RoomAfter, AimFits;
    var now := RoomAfter(ms, run);
    forall k | k in now ensures Tellable(now[k]) && IsI32(now[k].code) {
      MonsterIsTellable(ms, run, k);
    }
    ReportsAreSayable(codes, now, players, aims, false);
    ReportsAreSayable(codes, now, players, aims, true);
    EachAnnouncedOnce(codes, Respawned(now), players, aims);
    var start := Respawned(now);
    var moves := Reports(codes, start, players, aims, false);
    ReportsAreRead(moves, Reports(codes, start, players, aims, true), yaws, after);
  }

  lemma MonsterIsTellable(ms: map<int, Mon>, run: seq<RoomEvent>, k: int)
    requires IsNewRoom(ms) && CanRun(ms, run) && k in ms
    ensures Tellable(RoomAfter(ms, run)[k]) && RoomAfter(ms, run)[k].code == k
  {
    hide CanRun, RoomAfter;
    EachLivesItsHistory(ms, run, k);
    AlwaysTellable(ms[k], Project(ms, run, k));
    KeepsCode(ms[k], Project(ms, run, k));
  }

  lemma {:induction false} KeepsCode(m: Mon, es: seq<Event>)
    ensures After(m, es).code == m.code
    decreases |es|
  {
    hide Advance, Clamp, InRange, InRect;
    if es != [] {
      KeepsCode(Step(m, es[0]), es[1..]);
    }
  }
}
