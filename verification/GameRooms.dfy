/** The room: its monsters as objects, the steps of a round, and what the whole room keeps over every run. */
module GameRooms {
  import opened Geometry
  import opened Monsters

  // ----- the room as values -----

  datatype RoomEvent =
    | HitMonster(code: int, fd: int, damage: int)
    | RoomRound(players: map<int, Pos>, aims: map<int, Aim>)

  ghost predicate RoomPossible(ms: map<int, Mon>, e: RoomEvent)
  {
    match e
    case HitMonster(code, fd, damage) => 0 <= fd < 0x8000_0000 && damage > 0
    case RoomRound(players, aims) =>
      ms.Keys <= aims.Keys && forall k :: k in ms ==> AimFits(Respawn(ms[k]), players, aims[k])
  }

  function RoomStep(ms: map<int, Mon>, e: RoomEvent): (after: map<int, Mon>)
    requires e.RoomRound? ==> ms.Keys <= e.aims.Keys
    ensures after.Keys == ms.Keys
  {
    match e
    case HitMonster(code, fd, damage) => if code in ms then ms[code := TakeHit(ms[code], fd, damage)] else ms
    case RoomRound(players, aims) => map k | k in ms :: Round(ms[k], players, aims[k]).0
  }

  ghost predicate CanRun(ms: map<int, Mon>, run: seq<RoomEvent>)
    decreases |run|
  {
    run == [] || (RoomPossible(ms, run[0]) && CanRun(RoomStep(ms, run[0]), run[1..]))
  }

  ghost function RoomAfter(ms: map<int, Mon>, run: seq<RoomEvent>): (after: map<int, Mon>)
    requires CanRun(ms, run)
    ensures after.Keys == ms.Keys
    decreases |run|
  {
    if run == [] then ms else RoomAfter(RoomStep(ms, run[0]), run[1..])
  }

  /** What a run of the room means for one monster. */
  ghost function Project(ms: map<int, Mon>, run: seq<RoomEvent>, k: int): seq<Event>
    requires CanRun(ms, run) && k in ms
    decreases |run|
  {
    if run == [] then []
    else
      var rest := Project(RoomStep(ms, run[0]), run[1..], k);
      match run[0]
      case HitMonster(code, fd, damage) => if code == k then [Hit(fd, damage)] + rest else rest
      case RoomRound(players, aims) => [Tick(players, aims[k])] + rest
  }

  /** Monsters do not interfere: each lives its own history. */
  lemma {:induction false} EachLivesItsHistory(ms: map<int, Mon>, run: seq<RoomEvent>, k: int)
    requires CanRun(ms, run) && k in ms
    ensures IsHistory(ms[k], Project(ms, run, k))
    ensures RoomAfter(ms, run)[k] == After(ms[k], Project(ms, run, k))
    decreases |run|
  {
    hide Round, TakeHit, AimFits, Respawn;
    if run != [] {
      EachLivesItsHistory(RoomStep(ms, run[0]), run[1..], k);
      assert Project(ms, run, k) != [] ==> Project(ms, run, k)[1..] == Project(RoomStep(ms, run[0]), run[1..], k)
                                           || (run[0].HitMonster? && run[0].code != k);
    }
  }

  /** A room as its constructor leaves it. */
  ghost predicate IsNewRoom(ms: map<int, Mon>)
  {
    forall k :: k in ms ==>
      InClosedMap(ms[k].startX, ms[k].startY) && ms[k] == NewMonster(k, ms[k].startX, ms[k].startY)
  }

  /** In every run of the room, whatever players and random directions do: every monster is in the map, is spawned
      exactly when its hp is positive, and has started no more attacks than the rounds allow. */
  lemma RoomKeepsItsPromises(ms: map<int, Mon>, run: seq<RoomEvent>, k: int)
    requires IsNewRoom(ms) && CanRun(ms, run) && k in ms
    ensures var m := RoomAfter(ms, run)[k];
            && InClosedMap(m.pos.x, m.pos.y) && (m.spawned <==> m.hp > 0)
            && (m.spawned ==> 0 < m.hp <= FULL_HP)
    ensures AttacksStarted(ms[k], Project(ms, run, k)) <= MostAttacks(Rounds(Project(ms, run, k)))
  {
    EachLivesItsHistory(ms, run, k);
    var es := Project(ms, run, k);
    NeverLeavesMap(ms[k], es);
    HitsSinceSpawn(k, ms[k].startX, ms[k].startY, es);
    AttackRate(k, ms[k].startX, ms[k].startY, es);
  }

  // ----- the classes -----

  class MapInfo {
    const halfX: int
    const halfY: int

    constructor (x: int, y: int)
      ensures halfX == x * 500 - 100 && halfY == y * 500 - 100
    {
      halfX, halfY := x * 500 - 100, y * 500 - 100;
    }

    predicate IsInRect(x: int, y: int)
    {
      -halfX < x < halfX && -halfY < y < halfY
    }

    /** The arguments are references in the source; the clamped values are returned. */
    method InMonsterRect(x: int, y: int) returns (x': int, y': int, flag: bool)
      requires halfX >= 0 && halfY >= 0
      ensures -halfX <= x' <= halfX && -halfY <= y' <= halfY
      ensures flag <==> !(-halfX <= x <= halfX && -halfY <= y <= halfY)
      ensures -halfX <= x <= halfX ==> x' == x
      ensures -halfY <= y <= halfY ==> y' == y
      ensures halfX == halfY == HALF ==> x' == Clamp(x) && y' == Clamp(y)
    {
      x', y', flag := x, y, false;
      if -halfX > x {
        x', flag := -halfX, true;
      } else if halfX < x {
        x', flag := halfX, true;
      }
      if -halfY > y {
        y', flag := -halfY, true;
      } else if halfY < y {
        y', flag := halfY, true;
      }
    }
  }

  class Monster {
    const code: int
    const startX: int
    const startY: int
    var pos: Pos
    var moving: bool
    var attacking: bool
    var target: int
    var tick: int
    var hp: int
    var spawned: bool

    function Value(): Mon
      reads this
    {
      Mon(code, startX, startY, pos, moving, attacking, target, tick, hp, spawned)
    }

    constructor (code: int, startX: int, startY: int)
      ensures Value() == NewMonster(code, startX, startY)
    {
      this.code, this.startX, this.startY := code, startX, startY;
      pos, moving, attacking, target, tick := Pos(startX, startY, 100), true, false, NOBODY, -1;
      hp, spawned := FULL_HP, true;
    }

    method SetMoving(isMoving: bool)
      modifies this
      ensures Value() == old(Value()).(moving := isMoving)
    {
      moving := isMoving;
    }

    method TakeDemage(damage: int)
      modifies this
      ensures Value() == old(Value()).(hp := old(hp) - damage, spawned := old(spawned) && old(hp) - damage > 0)
    {
      hp := hp - damage;
      if hp <= 0 {
        spawned := false;
      }
    }

    predicate DieUnit()
      reads this
    {
      !(hp > 0)
    }

    method ResetSpawn()
      modifies this
      ensures Value() == old(Value()).(pos := Pos(startX, startY, 100), hp := FULL_HP, target := NOBODY)
    {
      pos, hp, target := Pos(startX, startY, 100), FULL_HP, NOBODY;
    }

    method Tick()
      modifies this
      ensures Value() == SetTick(old(Value()))
    {
      if attacking {
        tick := (tick + 1) % COOLDOWN;
        if tick == 0 {
          attacking := false;
        }
      }
    }

    /** The step towards, or the decision to attack, a target at t; aim is its direction and distance. */
    method MoveTarget(ghost t: Pos, aim: Aim) returns (isAttack: bool)
      requires IsAim(aim, t.x - pos.x, t.y - pos.y)
      modifies this
      ensures old(attacking) ==> !isAttack && Value() == old(Value())
      ensures !old(attacking) ==>
                && (isAttack <==> SquaredLength(t.x - old(pos).x, t.y - old(pos).y) < 40401)
                && Value() == if isAttack then old(Value()).(attacking := true)
                              else old(Value()).(pos := Pos(Advance(old(pos).x, aim.c), Advance(old(pos).y, aim.s),
                                                            old(pos).z))
    {
      RangeTest(aim, t.x - pos.x, t.y - pos.y);
      if attacking {
        return false;
      }
      if InRange(aim) {
        attacking := true;
        return true;
      }
      pos := Pos(Advance(pos.x, aim.c), Advance(pos.y, aim.s), pos.z);
      return false;
    }
  }

  class GameRoom {
    const mapInfo: MapInfo
    const monsters: map<int, Monster>
    /** The players of the connected sessions, by socket. */
    var players: map<int, Pos>

    ghost predicate Valid()
    {
      && mapInfo.halfX == mapInfo.halfY == HALF
      && (forall k :: k in monsters ==> monsters[k].code == k)
    }

    function Values(): (ms: map<int, Mon>)
      reads monsters.Values
      ensures ms.Keys == monsters.Keys
    {
      map k | k in monsters :: monsters[k].Value()
    }

    /** starts: the random spawn points, drawn at least 1000 inside the border. */
    constructor (starts: seq<(int, int)>)
      requires forall i :: 0 <= i < |starts| ==>
        -HALF + 1000 <= starts[i].0 <= HALF - 1000 && -HALF + 1000 <= starts[i].1 <= HALF - 1000
      ensures Valid() && IsNewRoom(Values()) && players == map[]
      ensures forall k :: k in monsters <==> -|starts| <= k <= -1
      ensures forall k :: k in monsters ==>
        fresh(monsters[k]) && Values()[k] == NewMonster(k, starts[-k - 1].0, starts[-k - 1].1)
    {
      var info := new MapInfo(5, 5);
      var made: map<int, Monster> := map[];
      for i := 0 to |starts|
        invariant forall k :: k in made <==> -i <= k <= -1
        invariant forall k :: k in made ==>
          fresh(made[k]) && made[k].Value() == NewMonster(k, starts[-k - 1].0, starts[-k - 1].1)
      {
        var m := new Monster(-i - 1, starts[i].0, starts[i].1);
        made := made[-i - 1 := m];
      }
      mapInfo, monsters, players := info, made, map[];
    }

    /** MonsterHit; hit says whether the packet is broadcast. */
    method MonsterHit(code: int, fd: int, damage: int) returns (hit: bool)
      requires Valid()
      modifies monsters.Values
      ensures hit == (code in monsters) && Values() == RoomStep(old(Values()), HitMonster(code, fd, damage))
    {
      if code !in monsters {
        return false;
      }
      var m := monsters[code];
      assert m in monsters.Values;
      m.SetMoving(false);
      m.TakeDemage(damage);
      if !m.DieUnit() {
        m.target := fd;
      }
      OnlyOneChanged(code);
      return true;
    }

    twostate lemma OnlyOneChanged(code: int)
      requires Valid() && code in monsters
      requires forall k :: k in monsters && k != code ==> unchanged(monsters[k])
      ensures Values() == old(Values())[code := monsters[code].Value()]
    {
      var after := old(Values())[code := monsters[code].Value()];
      forall k | k in monsters ensures Values()[k] == after[k] {
        if k != code { assert unchanged(monsters[k]); }
      }
    }

    /** One turn of the loop of SpanMoster. */
    method SpanOne(m: Monster)
      modifies m
      ensures m.Value() == Respawn(old(m.Value()))
    {
      if !m.spawned {
        m.ResetSpawn();
        m.spawned := true;
      }
    }

    method SpanMoster(codes: seq<int>)
      requires Valid() && IsWalk(codes)
      modifies monsters.Values
      ensures Values() == Respawned(old(Values()))
    {
      hide Respawn, Monster.Value;
      for i := 0 to |codes|
        invariant forall k :: k in monsters ==>
          monsters[k].Value() == if k in codes[..i] then Respawn(old(monsters[k].Value())) else old(monsters[k].Value())
      {
        var k := codes[i];
        assert k in codes && monsters[k] in monsters.Values && k !in codes[..i];
        assert codes[..i + 1] == codes[..i] + [k];
        SpanOne(monsters[k]);
      }
      assert codes[..|codes|] == codes;
      assert forall k :: k in monsters ==> Values()[k] == Respawn(old(Values())[k]);
    }

    /** codes is the order in which the monsters are visited, each once. */
    ghost predicate IsWalk(codes: seq<int>)
    {
      && (forall i :: 0 <= i < |codes| ==> codes[i] in monsters)
      && (forall k :: k in monsters ==> k in codes)
      && (forall i, j :: 0 <= i < j < |codes| ==> codes[i] != codes[j])
    }

    /** One turn of the loop of MoveMosters. */
    method MoveOne(m: Monster, aim: Aim) returns (report: Report)
      requires Valid() && AimFits(m.Value(), players, aim)
      modifies m
      ensures (m.Value(), report) == Act(old(m.Value()), players, aim)
    {
      var playerUuid := m.target;
      m.Tick();
      if m.spawned && m.moving && !m.attacking {
        if playerUuid > -1 && playerUuid in players && mapInfo.IsInRect(players[playerUuid].x, players[playerUuid].y) {
          RangeTest(aim, players[playerUuid].x - m.pos.x, players[playerUuid].y - m.pos.y);
          var isAttack := m.MoveTarget(players[playerUuid], aim);
          var inRect := mapInfo.IsInRect(m.pos.x, m.pos.y);
          if inRect && isAttack {
            return Attacked(m.code);
          }
        } else {
          var x, y, _ := mapInfo.InMonsterRect(Advance(m.pos.x, aim.c), Advance(m.pos.y, aim.s));
          m.pos := Pos(x, y, m.pos.z);
          playerUuid := NOBODY;
        }
        return Moved(m.code, m.pos, playerUuid);
      } else {
        m.SetMoving(true);
        return Quiet;
      }
    }

    method MoveMosters(codes: seq<int>, aims: map<int, Aim>) returns (moves: seq<Report>, attacks: seq<Report>)
      requires Valid() && IsWalk(codes) && monsters.Keys <= aims.Keys
      requires forall k :: k in monsters ==> AimFits(monsters[k].Value(), players, aims[k])
      modifies monsters.Values
      ensures Values() == map k | k in monsters :: Act(old(Values())[k], players, aims[k]).0
      ensures moves == Reports(codes, old(Values()), players, aims, false)
      ensures attacks == Reports(codes, old(Values()), players, aims, true)
    {
      hide Act, Monster.Value, AimFits, Reports;
      moves, attacks := [], [];
      ghost var before := Values();
      ReportsEmpty(before, players, aims);
      for i := 0 to |codes|
        invariant forall k :: k in monsters ==>
          monsters[k].Value() == if k in codes[..i] then Act(before[k], players, aims[k]).0 else before[k]
        invariant moves == Reports(codes[..i], before, players, aims, false)
        invariant attacks == Reports(codes[..i], before, players, aims, true)
      {
        var k := codes[i];
        assert monsters[k] in monsters.Values && k !in codes[..i];
        assert codes[..i + 1] == codes[..i] + [k];
        var report := MoveOne(monsters[k], aims[k]);
        ReportsSnoc(codes[..i], k, before, players, aims);
        if report.Attacked? {
          attacks := attacks + [report];
        } else if report.Moved? {
          moves := moves + [report];
        }
      }
      assert codes[..|codes|] == codes;
      assert forall k :: k in monsters ==> Values()[k] == Act(before[k], players, aims[k]).0;
    }

    /** The guarded body of RoomTask. */
    method RoundTask(codes: seq<int>, aims: map<int, Aim>) returns (moves: seq<Report>, attacks: seq<Report>)
      requires Valid() && IsWalk(codes) && RoomPossible(Values(), RoomRound(players, aims))
      modifies monsters.Values
      ensures Values() == RoomStep(old(Values()), RoomRound(players, aims))
      ensures moves == Reports(codes, Respawned(old(Values())), players, aims, false)
      ensures attacks == Reports(codes, Respawned(old(Values())), players, aims, true)
    {
      hide Act, Respawn, Monster.Value, AimFits;
      ghost var before := Values();
      SpanMoster(codes);
      assert Values() == Respawned(before);
      forall k | k in monsters ensures AimFits(monsters[k].Value(), players, aims[k]) {
        assert Values()[k] == Respawn(before[k]);
      }
      moves, attacks := MoveMosters(codes, aims);
      assert forall k :: k in monsters ==> Values()[k] == Round(before[k], players, aims[k]).0;
    }
  }

  lemma ReportsSnoc(codes: seq<int>, k: int, ms: map<int, Mon>, players: map<int, Pos>, aims: map<int, Aim>)
    requires k in ms && k in aims && forall i :: 0 <= i < |codes| ==> codes[i] in ms && codes[i] in aims
    ensures var r := Act(ms[k], players, aims[k]).1;
            && Reports(codes + [k], ms, players, aims, false)
               == Reports(codes, ms, players, aims, false) + (if r.Moved? then [r] else [])
            && Reports(codes + [k], ms, players, aims, true)
               == Reports(codes, ms, players, aims, true) + (if r.Attacked? then [r] else [])
  {
    hide Act;
    assert (codes + [k])[..|codes|] == codes;
  }

  lemma ReportsEmpty(ms: map<int, Mon>, players: map<int, Pos>, aims: map<int, Aim>)
    ensures Reports([], ms, players, aims, false) == [] && Reports([], ms, players, aims, true) == []
  {
  }

  function Respawned(ms: map<int, Mon>): map<int, Mon> { map k | k in ms :: Respawn(ms[k]) }

  /** The attacks, or the moves, that a round reports, in the order of codes. */
  function Reports(codes: seq<int>, ms: map<int, Mon>, players: map<int, Pos>, aims: map<int, Aim>,
                   attack: bool): seq<Report>
    requires forall i :: 0 <= i < |codes| ==> codes[i] in ms && codes[i] in aims
  {
    if codes == [] then []
    else
      var n := |codes| - 1;
      var r := Act(ms[codes[n]], players, aims[codes[n]]).1;
      Reports(codes[..n], ms, players, aims, attack) + (if (if attack then r.Attacked? else r.Moved?) then [r] else [])
  }

  /** The monsters of codes that a round says nothing about. */
  function QuietOnes(codes: seq<int>, ms: map<int, Mon>, players: map<int, Pos>, aims: map<int, Aim>): nat
    requires forall i :: 0 <= i < |codes| ==> codes[i] in ms && codes[i] in aims
  {
    if codes == [] then 0
    else
      var n := |codes| - 1;
      var r := Act(ms[codes[n]], players, aims[codes[n]]).1;
      QuietOnes(codes[..n], ms, players, aims) + (if r.Quiet? then 1 else 0)
  }

  /** A round announces each monster once, except those that rest: the report of each is in the list for its kind, and
      the lists hold no more. */
  lemma {:induction false} EachAnnouncedOnce(codes: seq<int>, ms: map<int, Mon>, players: map<int, Pos>,
                                             aims: map<int, Aim>)
    requires forall i :: 0 <= i < |codes| ==> codes[i] in ms && codes[i] in aims
    ensures var moves := Reports(codes, ms, players, aims, false);
            var attacks := Reports(codes, ms, players, aims, true);
            && |moves| + |attacks| + QuietOnes(codes, ms, players, aims) == |codes|
            && (forall i :: 0 <= i < |codes| ==>
                  var r := Act(ms[codes[i]], players, aims[codes[i]]).1;
                  (r.Moved? ==> r in moves) && (r.Attacked? ==> r in attacks))
  {
    hide Act;
    if codes != [] {
      EachAnnouncedOnce(codes[..|codes| - 1], ms, players, aims);
    }
  }
}
